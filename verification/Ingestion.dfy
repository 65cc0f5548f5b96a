/** The ingestion loop: bounded retries of Store, one switch of context, and the recovery ladder
    (agent/internal/ingestion/engine.go). */
module Ingestion {
  import opened Wrappers
  import opened Events
  import opened Storage
  import opened QuotaProperties
  import opened StorageProperties

  datatype Config = Config(tenantId: string, siteId: string, assetId: string)

  /** Identity is filled in only where the event has none. */
  function Enrich(cfg: Config, e: CanonicalEvent): CanonicalEvent {
    var e1 := if cfg.tenantId != "" && e.tenantId == "" then e.(tenantId := cfg.tenantId) else e;
    var e2 := if cfg.siteId != "" && e1.siteId == "" then e1.(siteId := cfg.siteId) else e1;
    if cfg.assetId != "" && e2.columns.assetId == "" then e2.(columns := e2.columns.(assetId := cfg.assetId)) else e2
  }

  datatype Outcome =
    | OutcomeCommitted | OutcomeFailedBeforeCommit | OutcomeRecoveredDLQ | OutcomeSpilledDisk | OutcomeDropped

  /** What ends the wait between attempts: the active context, or the timer (and then whether the
      active context has expired by the time it is asked). */
  datatype Wait = DoneFirst | TimerFirst(expired: bool)

  datatype AttemptEnv = AttemptEnv(store: StoreEnv, wait: Wait)

  /** What a failed append leaves in the file: nothing, part of the record, or, when only the sync failed, all of it. */
  datatype Leftover = Nothing | Torn | Whole

  datatype SpillEnv = Written | WriteFails(left: Leftover)

  /** The spill file after an append. */
  function Appended(spill: seq<Payload>, record: Payload, env: SpillEnv): seq<Payload> {
    match env
    case Written => spill + [record]
    case WriteFails(Nothing) => spill
    case WriteFails(Torn) => spill + [Raw("torn record")]
    case WriteFails(Whole) => spill + [record]
  }

  datatype IngestEnv = IngestEnv(canceledAtStart: bool, attempts: nat -> AttemptEnv, dlq: TxEnv, spill: SpillEnv)

  /** State at the top of the loop. onCtx: the active context is the first one. */
  datatype Loop = Loop(db: Db, event: CanonicalEvent, onCtx: bool, uncertain: nat, calls: nat, spill: seq<Payload>)

  datatype Turn =
    | Again(loop: Loop)
    | Finished(db: Db, event: CanonicalEvent, outcome: Outcome, uncertain: nat, calls: nat, spill: seq<Payload>)

  /** sameCtx: the caller passed one context twice. */
  function Start(db: Db, e: CanonicalEvent, sameCtx: bool, env: IngestEnv, spill: seq<Payload>): Turn {
    Again(Loop(db, e, sameCtx || !env.canceledAtStart, 0, 0, spill))
  }

  function Done(s: Loop, r: StoreReply, outcome: Outcome): Turn {
    Finished(r.db, r.event, outcome, s.uncertain, s.calls + 1, s.spill)
  }

  /** The ladder after the third uncertain attempt: dead-letter queue, then the spill file, then nothing. */
  function Recover(s: Loop, r: StoreReply, env: IngestEnv): (t: Turn)
    ensures t.Finished? && s.spill <= t.spill
  {
    var moved := MoveToDLQ(r.db, r.event, UncertainCommit, env.dlq);
    var n, c := s.uncertain + 1, s.calls + 1;
    if moved.ok then Finished(moved.db, r.event, OutcomeRecoveredDLQ, n, c, s.spill)
    else if !Encodable(r.event) then Finished(moved.db, r.event, OutcomeDropped, n, c, s.spill)
    else
      Finished(moved.db, r.event, if env.spill.Written? then OutcomeSpilledDisk else OutcomeDropped, n, c,
               Appended(s.spill, Json(r.event), env.spill))
  }

  /** One turn of the loop. */
  function Attempt(s: Loop, sameCtx: bool, quota: int, env: IngestEnv): Turn {
    var r := Store(s.db, quota, s.event, env.attempts(s.calls).store);
    match r.result
    case Stored => Done(s, r, OutcomeCommitted)
    case FailedBeforeCommit(cause) =>
      if cause == Canceled && s.onCtx then
        Again(s.(db := r.db, event := r.event, onCtx := sameCtx, calls := s.calls + 1))
      else
        Done(s, r, OutcomeFailedBeforeCommit)
    case Uncertain(_) =>
      var s' := s.(db := r.db, event := r.event, uncertain := s.uncertain + 1, calls := s.calls + 1);
      if s'.uncertain >= 3 then Recover(s, r, env)
      else
        match env.attempts(s.calls).wait
        case DoneFirst =>
          if s.onCtx then Again(s'.(onCtx := sameCtx))
          else Finished(r.db, r.event, OutcomeDropped, s'.uncertain, s'.calls, s.spill)
        case TimerFirst(expired) =>
          if expired && !s.onCtx then Finished(r.db, r.event, OutcomeDropped, s'.uncertain, s'.calls, s.spill)
          else Again(s')
  }

  /** n turns from t, or fewer if the loop ends. */
  function Iterate(t: Turn, n: nat, sameCtx: bool, quota: int, env: IngestEnv): Turn
    decreases n
  {
    if n == 0 || t.Finished? then t
    else Iterate(Attempt(t.loop, sameCtx, quota, env), n - 1, sameCtx, quota, env)
  }

  const TURNS := 4

  // ----- Termination -----

  /** Turns the loop can still take when the contexts are distinct. */
  function Budget(s: Loop): int {
    3 - s.uncertain + if s.onCtx then 1 else 0
  }

  lemma TurnSpends(s: Loop, quota: int, env: IngestEnv)
    requires s.uncertain < 3
    ensures var t := Attempt(s, false, quota, env);
            match t
            case Again(s') => s'.uncertain < 3 && Budget(s') < Budget(s) && s'.calls == s.calls + 1
                && (s'.onCtx ==> s.onCtx)
            case Finished(_, _, _, _, calls, _) => calls == s.calls + 1
  {
    hide Store;
  }

  lemma {:induction false} EndsInBudget(s: Loop, n: nat, quota: int, env: IngestEnv)
    requires s.uncertain < 3 && Budget(s) <= n
    ensures var t := Iterate(Again(s), n, false, quota, env);
            t.Finished? && s.calls < t.calls <= s.calls + Budget(s)
    decreases n
  {
    hide Attempt;
    TurnSpends(s, quota, env);
    var t := Attempt(s, false, quota, env);
    if t.Again? {
      EndsInBudget(t.loop, n - 1, quota, env);
    }
  }

  /** With one context passed twice, a store that keeps answering "canceled" keeps the loop going. */
  function AlwaysCanceled(): IngestEnv {
    var probe := Probe(Some(0), NoFault);
    var store := StoreEnv(Some(Canceled), None, 0, _ => probe, None, None, Committed);
    IngestEnv(false, _ => AttemptEnv(store, TimerFirst(false)), TxEnv(false, Committed), Written)
  }

  lemma {:induction false} NeverEnds(s: Loop, n: nat, quota: int)
    requires s.onCtx && s.event.eventId != NO_ID
    ensures Iterate(Again(s), n, true, quota, AlwaysCanceled()) == Again(s.(calls := s.calls + n))
    decreases n
  {
    if n > 0 {
      NeverEnds(s.(calls := s.calls + 1), n - 1, quota);
    }
  }

  ghost predicate EndsWithin(db: Db, e: CanonicalEvent, sameCtx: bool, quota: int, env: IngestEnv, n: nat) {
    Iterate(Start(db, e, sameCtx, env, []), n, sameCtx, quota, env).Finished?
  }

  ghost predicate Ends(db: Db, e: CanonicalEvent, sameCtx: bool, quota: int, env: IngestEnv) {
    exists n :: EndsWithin(db, e, sameCtx, quota, env, n)
  }

  lemma NoIdEnds(db: Db, e: CanonicalEvent, quota: int, env: IngestEnv)
    requires e.eventId == NO_ID
    ensures EndsWithin(db, e, true, quota, env, 1)
  {
  }

  /** ProcessEvent ends for every store exactly when its two contexts are distinct or the event has no id; with
      distinct contexts it calls Store at most four times. */
  lemma EndsExactlyWhenContextsDiffer(db: Db, e: CanonicalEvent, sameCtx: bool, quota: int)
    ensures (!sameCtx || e.eventId == NO_ID) <==> forall env :: Ends(db, e, sameCtx, quota, env)
    ensures !sameCtx ==> forall env: IngestEnv ::
              EndsWithin(db, e, false, quota, env, TURNS)
              && Iterate(Start(db, e, false, env, []), TURNS, false, quota, env).calls <= TURNS
  {
    if sameCtx && e.eventId == NO_ID {
      forall env ensures Ends(db, e, true, quota, env) {
        NoIdEnds(db, e, quota, env);
      }
    } else if sameCtx {
      var env := AlwaysCanceled();
      forall n ensures !EndsWithin(db, e, true, quota, env, n) {
        NeverEnds(Start(db, e, true, env, []).loop, n, quota);
      }
      assert !Ends(db, e, true, quota, env);
    } else {
      forall env ensures EndsWithin(db, e, false, quota, env, TURNS)
                         && Iterate(Start(db, e, false, env, []), TURNS, false, quota, env).calls <= TURNS
      {
        EndsInBudget(Start(db, e, false, env, []).loop, TURNS, quota, env);
      }
      forall env ensures Ends(db, e, sameCtx, quota, env) {
        assert EndsWithin(db, e, sameCtx, quota, env, TURNS);
      }
    }
  }

  // ----- What the loop does to the store -----

  /** Between the call and any later point of the loop: the store's invariant, at most one insertion and
      it is of this event, no dead-lettering, no other row of a non-prunable class lost. */
  ghost predicate Progress(db0: Db, e0: CanonicalEvent, db: Db, e: CanonicalEvent) {
    && Inv(db)
    && e == e0.(seqNo := e.seqNo)
    && db.dlq == db0.dlq
    && (Present(db0, e0.eventId) ==> db == db0)
    && (if e0.eventId in db.events && e0.eventId !in db0.events
        then db.nextSeqNo == db0.nextSeqNo + 1 && db.events[e0.eventId].payload == Json(e0.(seqNo := db0.nextSeqNo))
        else db.nextSeqNo == db0.nextSeqNo)
    && OthersKept(db0, e0.eventId, db)
  }

  ghost predicate OthersKept(db0: Db, id: EventId, db: Db) {
    && (forall x | x in db.events && x != id :: x in db0.events && db.events[x] == db0.events[x])
    && (forall x | x in db0.events && x != id && x !in db.events :: ClassRank(db0.events[x].severity) < 3)
  }

  lemma StoreProgress(db0: Db, e0: CanonicalEvent, db: Db, e: CanonicalEvent, quota: int, env: StoreEnv)
    requires Progress(db0, e0, db, e)
    ensures var r := Store(db, quota, e, env);
            && Progress(db0, e0, r.db, r.event)
            && (r.result.Stored? ==> Held(r.db, r.event))
            && (r.result.FailedBeforeCommit? ==> (e0.eventId in r.db.events <==> e0.eventId in db.events))
  {
    hide Store, Inv, Held;
    StoreSpec(db, quota, e, env);
  }

  /** What each outcome promises about the final state. */
  ghost predicate OutcomeHolds(db0: Db, e0: CanonicalEvent, spill0: seq<Payload>, t: Turn)
    requires t.Finished?
  {
    var id := e0.eventId;
    && Inv(t.db)
    && t.event == e0.(seqNo := t.event.seqNo)
    && db0.nextSeqNo <= t.db.nextSeqNo <= db0.nextSeqNo + 1
    && OthersKept(db0, id, t.db)
    && spill0 <= t.spill
    && (t.outcome == OutcomeCommitted ==> Held(t.db, t.event))
    && (t.outcome == OutcomeRecoveredDLQ ==> Held(t.db, t.event) && id in t.db.dlq && id !in t.db.events)
    && (t.outcome == OutcomeSpilledDisk ==> t.spill == spill0 + [Json(t.event)] && Encodable(t.event))
    && (t.outcome != OutcomeSpilledDisk && t.outcome != OutcomeDropped ==> t.spill == spill0)
    && (t.outcome == OutcomeFailedBeforeCommit && t.uncertain == 0 ==> (Present(t.db, id) <==> Present(db0, id)))
  }

  lemma RecoverHolds(db0: Db, e0: CanonicalEvent, s: Loop, r: StoreReply, env: IngestEnv)
    requires Progress(db0, e0, r.db, r.event) && r.result.Uncertain?
    ensures OutcomeHolds(db0, e0, s.spill, Recover(s, r, env))
  {
    hide Inv, MoveToDLQ;
    MoveToDLQSpec(r.db, r.event, UncertainCommit, env.dlq);
  }

  /** From any point the loop can be at, its end keeps the promise of its outcome. */
  lemma {:induction false} LoopHolds(db0: Db, e0: CanonicalEvent, s: Loop, n: nat, sameCtx: bool, quota: int,
                                     env: IngestEnv)
    requires Progress(db0, e0, s.db, s.event)
    requires s.uncertain == 0 ==> (e0.eventId in s.db.events <==> e0.eventId in db0.events)
    requires Iterate(Again(s), n, sameCtx, quota, env).Finished?
    ensures OutcomeHolds(db0, e0, s.spill, Iterate(Again(s), n, sameCtx, quota, env))
    decreases n
  {
    hide Store, Inv, Held, Recover, Progress, OutcomeHolds;
    var r := Store(s.db, quota, s.event, env.attempts(s.calls).store);
    StoreProgress(db0, e0, s.db, s.event, quota, env.attempts(s.calls).store);
    var t := Attempt(s, sameCtx, quota, env);
    assert n > 0 && Iterate(Again(s), n, sameCtx, quota, env) == Iterate(t, n - 1, sameCtx, quota, env);
    if t.Again? {
      LoopHolds(db0, e0, t.loop, n - 1, sameCtx, quota, env);
    } else if r.result.Uncertain? && s.uncertain + 1 >= 3 {
      RecoverHolds(db0, e0, s, r, env);
    } else {
      PlainEndHolds(db0, e0, s.spill, s.db, t);
    }
  }

  lemma PlainEndHolds(db0: Db, e0: CanonicalEvent, spill0: seq<Payload>, before: Db, t: Turn)
    requires t.Finished? && Progress(db0, e0, t.db, t.event) && t.spill == spill0
    requires t.outcome == OutcomeCommitted ==> Held(t.db, t.event)
    requires t.outcome != OutcomeRecoveredDLQ && t.outcome != OutcomeSpilledDisk
    requires t.outcome == OutcomeFailedBeforeCommit && t.uncertain == 0 ==>
               (e0.eventId in t.db.events <==> e0.eventId in db0.events)
    ensures OutcomeHolds(db0, e0, spill0, t)
  {
    hide Inv, Held;
  }

  /** Whatever the store does, ProcessEvent ends with what its outcome promises: COMMITTED and
      RECOVERED_DLQ mean the event is held (the latter in the dead-letter queue alone), SPILLED_DISK means
      its record was appended and no earlier record lost, at most one sequence number is used, no other
      CRITICAL or FATAL row is lost, and FAILED_BEFORE_COMMIT without an uncertain attempt means the event
      is in the store exactly if it was before. */
  lemma ProcessEventHolds(cfg: Config, db: Db, e: CanonicalEvent, sameCtx: bool, quota: int, env: IngestEnv,
                          spill: seq<Payload>, n: nat)
    requires Inv(db)
    requires Iterate(Start(db, Enrich(cfg, e), sameCtx, env, spill), n, sameCtx, quota, env).Finished?
    ensures OutcomeHolds(db, Enrich(cfg, e), spill,
                         Iterate(Start(db, Enrich(cfg, e), sameCtx, env, spill), n, sameCtx, quota, env))
  {
    hide Iterate, OutcomeHolds;
    var s := Start(db, Enrich(cfg, e), sameCtx, env, spill).loop;
    LoopHolds(db, Enrich(cfg, e), s, n, sameCtx, quota, env);
  }

  /** Retrying after a commit that landed unreported finds the row and succeeds, unless the lookup itself
      fails: it is never taken for a conflicting event. */
  lemma RetryRecognisesItsRow(db0: Db, e0: CanonicalEvent, db: Db, e: CanonicalEvent, quota: int, env: StoreEnv)
    requires Progress(db0, e0, db, e) && e0.eventId in db.events && e0.eventId !in db0.events && Encodable(e0)
    requires e0.eventId != NO_ID
    ensures var r := Store(db, quota, e, env);
            && r.db == db
            && (r.result.Stored? <==> env.lookupEvents.None?)
  {
    RestoreIsNoop(db, quota, e, env);
  }

  /** After an uncertain attempt FAILED_BEFORE_COMMIT settles nothing: for every new, encodable event there
      are two runs with that outcome, the same in all the engine sees, one leaving the row and one not. */
  lemma FailureAfterUncertainIsOpen(db: Db, e: CanonicalEvent, quota: int)
    requires Inv(db) && !Present(db, e.eventId) && Encodable(e) && e.eventId != NO_ID
    ensures exists landed, lost ::
              var a := Iterate(Start(db, e, false, landed, []), TURNS, false, quota, landed);
              var b := Iterate(Start(db, e, false, lost, []), TURNS, false, quota, lost);
              && a.Finished? && b.Finished?
              && a.outcome == b.outcome == OutcomeFailedBeforeCommit && a.uncertain == b.uncertain == 1
              && a.event == b.event && a.calls == b.calls && a.spill == b.spill
              && e.eventId in a.db.events && e.eventId !in b.db.events
  {
    var landed, lost := OneUncertain(quota, Unreported(Io)), OneUncertain(quota, RolledBack(Io));
    OneUncertainRun(db, e, quota, Unreported(Io));
    OneUncertainRun(db, e, quota, RolledBack(Io));
  }

  /** Room on disk, a first commit as given, then a failing lookup. */
  function OneUncertain(quota: int, commit: Commit): IngestEnv {
    var probe := Probe(Some(quota - 2048), NoFault);
    var first := StoreEnv(None, None, 0, _ => probe, None, None, commit);
    var second := first.(lookupEvents := Some(Io));
    IngestEnv(false, n => AttemptEnv(if n == 0 then first else second, TimerFirst(false)), TxEnv(false, Committed),
              Written)
  }

  lemma InsertNumbers(db: Db, e: CanonicalEvent, env: StoreEnv, uncounted: nat)
    requires env.begin.None? && e.eventId !in db.events
    ensures Insert(db, e, env, uncounted).event == e.(seqNo := db.nextSeqNo)
  {
  }

  lemma OneUncertainRun(db: Db, e: CanonicalEvent, quota: int, commit: Commit)
    requires Inv(db) && !Present(db, e.eventId) && Encodable(e) && e.eventId != NO_ID
    requires commit != Committed
    ensures var env := OneUncertain(quota, commit);
            var t := Iterate(Start(db, e, false, env, []), TURNS, false, quota, env);
            && t.Finished? && t.outcome == OutcomeFailedBeforeCommit && t.uncertain == 1
            && t.event == e.(seqNo := db.nextSeqNo) && t.calls == 2 && t.spill == []
            && (e.eventId in t.db.events <==> commit.Unreported?)
  {
    hide Sweep, Insert;
    var env := OneUncertain(quota, commit);
    var s := Start(db, e, false, env, []).loop;
    InsertSpec(db, e, env.attempts(0).store, 0);
    var r := Store(db, quota, e, env.attempts(0).store);
    assert r == Insert(db, e, env.attempts(0).store, 0);
    InsertNumbers(db, e, env.attempts(0).store, 0);
    var t := Attempt(s, false, quota, env);
    assert t == Again(Loop(r.db, r.event, true, 1, 1, []));
    assert Attempt(t.loop, false, quota, env).Finished?;
  }

  // ----- Numbers of dead letters -----

  /** Room on disk, every commit rolled back, a working dead-letter queue. */
  function AllRolledBack(quota: int): IngestEnv {
    var probe := Probe(Some(quota - 2048), NoFault);
    var store := StoreEnv(None, None, 0, _ => probe, None, None, RolledBack(Io));
    IngestEnv(false, _ => AttemptEnv(store, TimerFirst(false)), TxEnv(false, Committed), Written)
  }

  lemma RolledBackStore(db: Db, e: CanonicalEvent, quota: int, k: nat)
    requires Inv(db) && !Present(db, e.eventId) && Encodable(e) && e.eventId != NO_ID
    ensures Store(db, quota, e, AllRolledBack(quota).attempts(k).store)
            == StoreReply(db, e.(seqNo := db.nextSeqNo), Uncertain(Io), 0)
  {
    hide Sweep, Insert;
    var env := AllRolledBack(quota).attempts(k).store;
    InsertSpec(db, e, env, 0);
    InsertRolledBack(db, e, env);
  }

  lemma InsertRolledBack(db: Db, e: CanonicalEvent, env: StoreEnv)
    requires Inv(db) && !Present(db, e.eventId) && Encodable(e)
    requires env.begin.None? && env.write.None? && env.commit == RolledBack(Io)
    ensures Insert(db, e, env, 0) == StoreReply(db, e.(seqNo := db.nextSeqNo), Uncertain(Io), 0)
  {
  }

  lemma RolledBackTurn(db: Db, e: CanonicalEvent, quota: int, n: nat)
    requires Inv(db) && !Present(db, e.eventId) && Encodable(e) && e.eventId != NO_ID && n < 2
    ensures Attempt(Loop(db, e, true, n, n, []), false, quota, AllRolledBack(quota))
            == Again(Loop(db, e.(seqNo := db.nextSeqNo), true, n + 1, n + 1, []))
  {
    hide Store;
    RolledBackStore(db, e, quota, n);
  }

  /** Numbers are unique among live rows only: an event dead-lettered after rolled-back commits keeps a number
      that the next stored event is given again. */
  lemma DeadLetterNumberIsReused(db: Db, a: CanonicalEvent, b: CanonicalEvent, quota: int, next: StoreEnv)
    requires Inv(db) && a.eventId != b.eventId
    requires !Present(db, a.eventId) && Encodable(a) && a.eventId != NO_ID
    requires !Present(db, b.eventId)
    ensures var env := AllRolledBack(quota);
            var t := Iterate(Start(db, a, false, env, []), TURNS, false, quota, env);
            && t.Finished? && t.outcome == OutcomeRecoveredDLQ
            && var d := Store(t.db, quota, b, next).db;
            && a.eventId in d.dlq
            && (b.eventId in d.events ==> d.events[b.eventId].seqNo == d.dlq[a.eventId].seqNo)
  {
    hide Store, MoveToDLQ;
    var env := AllRolledBack(quota);
    var a' := a.(seqNo := db.nextSeqNo);
    RolledBackTurn(db, a, quota, 0);
    RolledBackTurn(db, a', quota, 1);
    RolledBackStore(db, a', quota, 2);
    hide Attempt;
    LastTurn(db, a', quota);
    var moved := MoveToDLQ(db, a', UncertainCommit, env.dlq);
    MoveToDLQSpec(db, a', UncertainCommit, env.dlq);
    DeadNumber(db, a');
    StoreSpec(moved.db, quota, b, next);
  }

  lemma LastTurn(db: Db, e: CanonicalEvent, quota: int)
    requires Inv(db) && !Present(db, e.eventId) && Encodable(e) && e.eventId != NO_ID && e.seqNo == db.nextSeqNo
    ensures var moved := MoveToDLQ(db, e, UncertainCommit, TxEnv(false, Committed));
            moved.ok ==>
              Attempt(Loop(db, e, true, 2, 2, []), false, quota, AllRolledBack(quota))
              == Finished(moved.db, e, OutcomeRecoveredDLQ, 3, 3, [])
  {
    hide Store, MoveToDLQ;
    RolledBackStore(db, e, quota, 2);
    assert e.(seqNo := db.nextSeqNo) == e;
  }

  lemma DeadNumber(db: Db, e: CanonicalEvent)
    requires Inv(db) && !Present(db, e.eventId) && Encodable(e)
    ensures var r := MoveToDLQ(db, e, UncertainCommit, TxEnv(false, Committed));
            r.ok && e.eventId in r.db.dlq && r.db.dlq[e.eventId].seqNo == e.seqNo
  {
  }
}

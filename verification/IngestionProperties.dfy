/** Exactly when the ingestion loop goes on, and which outcome it ends with
    (agent/internal/ingestion/engine.go). */
module IngestionProperties {
  import opened Events
  import opened Storage
  import opened StorageProperties
  import opened Ingestion

  // ----- Enrichment -----

  /** Exactly the empty ones of tenant, site and asset are filled from the configuration; nothing else changes, and
      doing it twice, as Run and ProcessEvent do between them, is doing it once. */
  lemma EnrichFills(cfg: Config, e: CanonicalEvent)
    ensures Enrich(cfg, e)
            == e.(tenantId := if e.tenantId == "" then cfg.tenantId else e.tenantId,
                  siteId := if e.siteId == "" then cfg.siteId else e.siteId,
                  columns := e.columns.(assetId := if e.columns.assetId == "" then cfg.assetId else e.columns.assetId))
    ensures Enrich(cfg, Enrich(cfg, e)) == Enrich(cfg, e)
  {
    assert e.columns.(assetId := e.columns.assetId) == e.columns;
  }

  // ----- One turn -----

  /** The store's answer in the turn that begins at s. */
  function Answer(s: Loop, quota: int, env: IngestEnv): StoreReply {
    Store(s.db, quota, s.event, env.attempts(s.calls).store)
  }

  /** The first context was cancelled before the commit. */
  predicate Interrupted(s: Loop, r: StoreResult) {
    r == FailedBeforeCommit(Canceled) && s.onCtx
  }

  /** The wait ended because the active context did, or the drain context expired meanwhile. */
  predicate DrainEnded(s: Loop, w: Wait) {
    !s.onCtx && w != TimerFirst(false)
  }

  /** The loop goes on exactly after an interruption on the first context and after the first two uncertain
      attempts, unless the drain context has ended by then. It goes on with what the store left, and changes to the
      drain context exactly where the first one is known to have ended. */
  lemma GoesOnExactly(s: Loop, sameCtx: bool, quota: int, env: IngestEnv)
    requires s.uncertain < 3
    ensures var r := Answer(s, quota, env);
            var w := env.attempts(s.calls).wait;
            var t := Attempt(s, sameCtx, quota, env);
            && (t.Again? <==> Interrupted(s, r.result)
                              || (r.result.Uncertain? && s.uncertain < 2 && !DrainEnded(s, w)))
            && (t.Again? ==>
                  && t.loop.db == r.db && t.loop.event == r.event
                  && t.loop.calls == s.calls + 1 && t.loop.spill == s.spill
                  && t.loop.uncertain == s.uncertain + (if r.result.Uncertain? then 1 else 0)
                  && t.loop.onCtx == (s.onCtx && (sameCtx || (r.result.Uncertain? && w != DoneFirst))))
  {
    hide Store, Recover;
  }

  // ----- The outcome -----

  /** What the outcome says of the answer in the last turn, which begins at s. */
  ghost predicate OutcomeTells(s: Loop, quota: int, env: IngestEnv, t: Turn)
    requires t.Finished?
  {
    var r := Answer(s, quota, env);
    var third := r.result.Uncertain? && s.uncertain == 2;
    var moved := MoveToDLQ(r.db, r.event, UncertainCommit, env.dlq);
    var tried := third && !moved.ok && Encodable(r.event);
    && t.event == r.event && t.calls == s.calls + 1
    && t.uncertain == s.uncertain + (if r.result.Uncertain? then 1 else 0)
    && t.db == (if third then moved.db else r.db)
    && (t.outcome == OutcomeCommitted <==> r.result.Stored?)
    && (t.outcome == OutcomeFailedBeforeCommit <==> r.result.FailedBeforeCommit?)
    && (t.outcome == OutcomeRecoveredDLQ <==> third && moved.ok)
    && (t.outcome == OutcomeSpilledDisk <==> tried && env.spill.Written?)
    && (t.outcome == OutcomeDropped <==>
          || (third && !moved.ok && (!Encodable(r.event) || env.spill.WriteFails?))
          || (r.result.Uncertain? && !third && DrainEnded(s, env.attempts(s.calls).wait)))
    && (!tried ==> t.spill == s.spill)
    && !Interrupted(s, r.result)
  }

  lemma LastTurnTells(s: Loop, sameCtx: bool, quota: int, env: IngestEnv)
    requires s.uncertain < 3 && Attempt(s, sameCtx, quota, env).Finished?
    ensures OutcomeTells(s, quota, env, Attempt(s, sameCtx, quota, env))
  {
    hide Store, MoveToDLQ;
  }

  /** The last turn of a loop that ends in n turns from s. */
  lemma {:induction false} LastTurnOf(s: Loop, n: nat, sameCtx: bool, quota: int, env: IngestEnv)
    requires s.uncertain < 3 && Iterate(Again(s), n, sameCtx, quota, env).Finished?
    ensures var t := Iterate(Again(s), n, sameCtx, quota, env);
            && s.calls < t.calls
            && var before := Iterate(Again(s), t.calls - s.calls - 1, sameCtx, quota, env);
            && before.Again? && before.loop.calls == t.calls - 1
            && OutcomeTells(before.loop, quota, env, t)
    decreases n
  {
    hide OutcomeTells, Attempt, Answer;
    var t := Attempt(s, sameCtx, quota, env);
    GoesOnExactly(s, sameCtx, quota, env);
    if t.Again? {
      LastTurnOf(t.loop, n - 1, sameCtx, quota, env);
    } else {
      LastTurnTells(s, sameCtx, quota, env);
      CallsOf(s, quota, env, t);
    }
  }

  lemma CallsOf(s: Loop, quota: int, env: IngestEnv, t: Turn)
    requires t.Finished? && OutcomeTells(s, quota, env, t)
    ensures t.calls == s.calls + 1
  {
    hide Answer;
  }

  /** The outcome of a ProcessEvent that ends, both ways round: COMMITTED exactly if the last Store answered Stored,
      FAILED_BEFORE_COMMIT exactly if it failed otherwise than by an interruption, RECOVERED_DLQ exactly if the
      third uncertain attempt's event went to the dead-letter queue, SPILLED_DISK exactly if it did not and its
      record was written, and DROPPED exactly after an uncertain attempt with the drain context at its end, or after
      the third with both ways of recovery failed. It starts on the drain context exactly if the first context,
      being another, is cancelled already. */
  lemma OutcomeExactly(cfg: Config, db: Db, e: CanonicalEvent, sameCtx: bool, quota: int, env: IngestEnv,
                       spill: seq<Payload>, n: nat)
    requires Iterate(Start(db, Enrich(cfg, e), sameCtx, env, spill), n, sameCtx, quota, env).Finished?
    ensures var first := Again(Loop(db, Enrich(cfg, e), sameCtx || !env.canceledAtStart, 0, 0, spill));
            var t := Iterate(Start(db, Enrich(cfg, e), sameCtx, env, spill), n, sameCtx, quota, env);
            && 0 < t.calls
            && var last := Iterate(first, t.calls - 1, sameCtx, quota, env);
            && last.Again? && last.loop.calls == t.calls - 1
            && OutcomeTells(last.loop, quota, env, t)
  {
    hide Iterate, OutcomeTells;
    LastTurnOf(Start(db, Enrich(cfg, e), sameCtx, env, spill).loop, n, sameCtx, quota, env);
  }

  /** A new event that meets no obstacle is committed by the first Store, whatever would happen later. */
  lemma UnhinderedIsCommitted(cfg: Config, db: Db, e: CanonicalEvent, sameCtx: bool, quota: int, env: IngestEnv,
                              spill: seq<Payload>)
    requires Inv(db) && !Present(db, e.eventId) && e.eventId != NO_ID && Encodable(e)
    requires var x := env.attempts(0).store;
             && x.lookupEvents.None? && x.lookupDlq.None? && x.begin.None? && x.write.None? && x.commit.Committed?
             && x.disk(0).size.Some? && x.disk(0).size.value + x.jsonLength + 1024 < quota
    ensures var e' := Enrich(cfg, e);
            exists db' ::
              && Iterate(Start(db, e', sameCtx, env, spill), 1, sameCtx, quota, env)
                 == Finished(db', e'.(seqNo := db.nextSeqNo), OutcomeCommitted, 0, 1, spill)
              && db'.events == db.events[e.eventId := FreshRow(db, e')]
              && db' == db.(events := db'.events, nextSeqNo := db.nextSeqNo + 1)
  {
    hide Store, FreshRow, Inv;
    var e' := Enrich(cfg, e);
    EnrichFills(cfg, e);
    StoreAnswers(db, quota, e', env.attempts(0).store);
    StoreSpec(db, quota, e', env.attempts(0).store);
    RoomIsEnough(db, e', env.attempts(0).store, quota);
  }

  lemma RoomIsEnough(db: Db, e: CanonicalEvent, x: StoreEnv, quota: int)
    requires x.disk(0).size.Some? && x.disk(0).size.value + x.jsonLength + 1024 < quota
    ensures EnforceQuota(db, e.severity, x.jsonLength + 1024, quota, x.disk) == Swept(db, Fits, 0)
  {
  }
}

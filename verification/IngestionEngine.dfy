/** The ingestion engine in its own form: a loop over a mutable store and an append-only spill file. */
module IngestionEngine {
  import opened Events
  import opened Storage
  import opened SQLite
  import opened Ingestion

  datatype Context = Context(id: nat)

  class Engine {
    const cfg: Config
    const db: SQLiteStorage
    var spill: seq<Payload>

    constructor (db: SQLiteStorage, cfg: Config)
      ensures this.db == db && this.cfg == cfg && spill == []
    {
      this.db, this.cfg, spill := db, cfg, [];
    }

    /** Appends one record; a failed append may leave something behind, never less than before. */
    method AppendEmergencySpill(record: Payload, env: SpillEnv) returns (ok: bool)
      modifies this`spill
      ensures ok <==> env.Written?
      ensures spill == Appended(old(spill), record, env) && old(spill) <= spill
    {
      match env {
        case Written =>
          spill := spill + [record];
        case WriteFails(Nothing) =>
        case WriteFails(Torn) =>
          spill := spill + [Raw("torn record")];
        case WriteFails(Whole) =>
          spill := spill + [record];
      }
      ok := env.Written?;
    }

    /** The ladder after the last uncertain attempt; s and r are the loop's state and the store's answer. */
    method RecoverUncertain(event: CanonicalEvent, env: IngestEnv, ghost s: Loop, ghost r: StoreReply)
      returns (outcome: Outcome)
      requires r.db == db.Contents() && r.event == event && s.spill == spill
      modifies this, db
      ensures var t := Recover(s, r, env);
              db.Contents() == t.db && event == t.event && outcome == t.outcome && spill == t.spill
    {
      hide Storage.MoveToDLQ;
      var moved := db.MoveToDLQ(event, UncertainCommit, env.dlq);
      if moved {
        return OutcomeRecoveredDLQ;
      }
      var record := Serialize(event);
      if record.None? {
        return OutcomeDropped;
      }
      var spilled := AppendEmergencySpill(record.value, env.spill);
      return if spilled then OutcomeSpilledDisk else OutcomeDropped;
    }

    /** turns: how long the loop may take when one context is passed twice; distinct contexts need no bound. */
    method ProcessEvent(ctx: Context, drainCtx: Context, e: CanonicalEvent, env: IngestEnv, ghost turns: nat)
      returns (event: CanonicalEvent, outcome: Outcome)
      requires ctx == drainCtx ==>
                 Iterate(Start(db.Contents(), Enrich(cfg, e), true, env, spill), turns, true, db.quotaBytes,
                         env).Finished?
      modifies this, db
      ensures var n := if ctx == drainCtx then turns else TURNS;
              var t := Iterate(Start(old(db.Contents()), Enrich(cfg, e), ctx == drainCtx, env, old(spill)),
                               n, ctx == drainCtx, db.quotaBytes, env);
              && t.Finished?
              && db.Contents() == t.db && event == t.event && outcome == t.outcome && spill == t.spill
    {
      hide Storage.Store, Recover;
      event := Enrich(cfg, e);
      var storeCtx := ctx;
      if env.canceledAtStart {
        storeCtx := drainCtx;
      }
      ghost var same := ctx == drainCtx;
      ghost var start := Start(db.Contents(), event, same, env, spill);
      ghost var left: nat := if same then turns else TURNS;
      ghost var goal := Iterate(start, left, same, db.quotaBytes, env);
      if !same { EndsInBudget(start.loop, left, db.quotaBytes, env); }
      var attempts, calls := 0, 0;
      while true
        invariant attempts < 3
        invariant goal.Finished?
        invariant goal == Iterate(Again(Loop(db.Contents(), event, storeCtx == ctx, attempts, calls, spill)), left,
                                  same, db.quotaBytes, env)
        decreases left
      {
        assert left > 0;
        var fate := env.attempts(calls);
        ghost var s := Loop(db.Contents(), event, storeCtx == ctx, attempts, calls, spill);
        ghost var r := Storage.Store(s.db, db.quotaBytes, event, fate.store);
        var result;
        event, result := db.Store(event, fate.store);
        calls := calls + 1;
        left := left - 1;
        match result {
          case Stored =>
            return event, OutcomeCommitted;
          case FailedBeforeCommit(cause) =>
            if cause == Canceled && storeCtx == ctx {
              storeCtx := drainCtx;
            } else {
              return event, OutcomeFailedBeforeCommit;
            }
          case Uncertain(_) =>
            attempts := attempts + 1;
            if attempts >= 3 {
              outcome := RecoverUncertain(event, env, s, r);
              return event, outcome;
            }
            match fate.wait {
              case DoneFirst =>
                if storeCtx == ctx {
                  storeCtx := drainCtx;
                } else {
                  return event, OutcomeDropped;
                }
              case TimerFirst(expired) =>
                if expired && storeCtx != ctx {
                  return event, OutcomeDropped;
                }
            }
        }
      }
    }
  }
}

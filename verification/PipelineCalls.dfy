/** The loops of the agent and of the worker, uninterrupted, are runs of the pipeline machine as well, so what
    holds of every run holds of them. */
module PipelineCalls {
  import opened Wrappers
  import opened Events
  import opened Storage
  import Ingestion
  import opened Server
  import opened Pipeline
  import opened Forwarding

  // ----- ProcessPending -----

  /** The exchange can happen: a 202 or a 400 is one the handler gives to this very request. */
  ghost predicate CanHappen(d: Deployment, e: CanonicalEvent, x: Exchange) {
    x.Answered? && (x.status == Accepted || x.status == BadRequest) ==>
      exists fits, served, append :: HandlerSays(d, e, fits, served, append, x.status)
  }

  predicate HandlerSays(d: Deployment, e: CanonicalEvent, fits: bool, served: Time, append: Append, status: Status) {
    ServeHTTP(EMPTY_QUEUE, RequestFor(e, d.tenantId, fits), served, append).1 == status
  }

  lemma StatusIgnoresTheQueue(q: Queue, r: Queue, req: Request, now: Time, append: Append)
    ensures ServeHTTP(q, req, now, append).1 == ServeHTTP(r, req, now, append).1
  {
  }

  lemma SendIsARun(d: Deployment, s: Sys, x: Exchange, env: TxEnv, now: Time, nanos: nat, fate: Fate)
    returns (actions: seq<Action>)
    requires s.batch != [] && s.awaiting.None? && CanHappen(d, s.batch[0], x)
    ensures var s' := After(d, s, actions);
            && s'.db == AfterSend(s.db, s.batch[0], d.tenantId, x, env, now, nanos, fate)
            && s'.batch == s.batch[1..] && s'.awaiting.None?
  {
    hide After, AfterSend, ServeHTTP;
    var e := s.batch[0];
    if x.Answered? && (x.status == Accepted || x.status == BadRequest) {
      var fits, served, append :| HandlerSays(d, e, fits, served, append, x.status);
      StatusIgnoresTheQueue(s.queue, EMPTY_QUEUE, RequestFor(e, d.tenantId, fits), served, append);
      actions := SendActions(e, true, fits, served, append, Some(x.status), env, RetryEnv(0, now, nanos, fate));
      AnsweredSendIsARun(d, s, fits, served, append, x.retryAfter, env, now, nanos, fate);
      assert x == Answered(x.status, x.retryAfter);
    } else {
      actions := SendActions(e, false, true, 0, NotAppended, None, env, RetryEnv(RetryAfterOf(x), now, nanos, fate));
      UnansweredSendIsARun(d, s, x, false, true, 0, NotAppended, env, now, nanos, fate);
    }
  }

  lemma {:induction false} SendAllIsARun(d: Deployment, s: Sys, net: NetworkState, es: seq<CanonicalEvent>, i: nat,
                                         exchanges: nat -> Exchange, envs: nat -> TxEnv, now: Time, nanos: nat,
                                         fates: nat -> Fate, stopAfter: nat)
    returns (actions: seq<Action>)
    requires i <= |es| && s.batch == es[i..] && s.awaiting.None?
    requires forall k | i <= k < |es| :: CanHappen(d, es[k], exchanges(k))
    ensures After(d, s, actions).db
            == SendAll(s.db, net, es, i, d.tenantId, exchanges, envs, now, nanos, fates, stopAfter).0
    ensures After(d, s, actions).awaiting.None?
    decreases |es| - i
  {
    hide AfterSend, NetworkAfter, CanHappen, Next;
    if i == |es| || i >= stopAfter {
      actions := [];
    } else {
      var first := SendIsARun(d, s, exchanges(i), envs(i), now, nanos, fates(i));
      var s' := After(d, s, first);
      assert es[i..][1..] == es[i + 1..];
      var rest := SendAllIsARun(d, s', NetworkAfter(net, es[i], d.tenantId, exchanges(i)), es, i + 1, exchanges, envs,
                                now, nanos, fates, stopAfter);
      actions := first + rest;
      AfterBoth(d, s, first, rest);
    }
  }

  /** A ProcessPending of the forwarder, from the fetch to the last send. */
  lemma ProcessPendingIsARun(d: Deployment, s: Sys, now: Time, fetch: FetchEnv, exchanges: nat -> Exchange,
                             envs: nat -> TxEnv, nanos: nat, fates: nat -> Fate, stopAfter: nat)
    returns (actions: seq<Action>)
    requires s.batch == [] && s.awaiting.None?
    requires var r := GetPendingEvents(s.db, now, 50, fetch);
             r.events.Some? ==> forall k: nat | k < |r.events.value| :: CanHappen(d, r.events.value[k], exchanges(k))
    ensures var r := GetPendingEvents(s.db, now, 50, fetch);
            After(d, s, actions).db
            == match r.events
               case None => r.db
               case Some(es) =>
                 SendAll(r.db, NetworkUnknown, es, 0, d.tenantId, exchanges, envs, now, nanos, fates, stopAfter).0
    ensures After(d, s, actions).awaiting.None?
  {
    hide GetPendingEvents, CanHappen, SendAll, After;
    var r := GetPendingEvents(s.db, now, 50, fetch);
    var s1 := Next(d, s, AFetch(now, 50, fetch));
    AfterCons(d, s, AFetch(now, 50, fetch), []);
    AfterNothing(d, s1);
    match r.events {
      case None =>
        actions := [AFetch(now, 50, fetch)] + [];
      case Some(es) =>
        assert es[0..] == es;
        var rest := SendAllIsARun(d, s1, NetworkUnknown, es, 0, exchanges, envs, now, nanos, fates, stopAfter);
        actions := [AFetch(now, 50, fetch)] + rest;
        AfterCons(d, s, AFetch(now, 50, fetch), rest);
    }
  }

  lemma AfterNothing(d: Deployment, s: Sys)
    ensures After(d, s, []) == s
  {
  }

  // ----- recoverPending -----

  ghost predicate AllDelivered(q: Queue, ms: seq<nat>) {
    forall m | m in ms :: m < |q.stream| && q.stream[m].delivered
  }

  lemma ProcessedStayDelivered(q: Queue, pg: Pg, m: nat, env: WorkEnv, ms: seq<nat>)
    requires m < |q.stream| && AllDelivered(q, ms)
    ensures AllDelivered(ProcessMessage(q, pg, m, env).0, ms)
  {
  }

  lemma WorkIsARun(d: Deployment, s: Sys, m: nat, env: WorkEnv) returns (actions: seq<Action>)
    requires m < |s.queue.stream| && s.queue.stream[m].delivered
    ensures var s' := After(d, s, actions); (s'.queue, s'.pg) == ProcessMessage(s.queue, s.pg, m, env)
  {
    hide Next, ProcessMessage, Persist;
    ProcessMessageIsARun(d, s, m, env);
    var healthy := Healthy(s.queue.stream[m].wire);
    var first := if healthy then APersist(m, env.persist) else ABury(m, env.deadLetter);
    var worked :=
      if healthy then Persist(s.pg, Parse(s.queue.stream[m].wire).0, env.persist).ok else env.deadLetter.Appended?;
    AfterCons(d, s, first, []);
    AfterNothing(d, Next(d, s, first));
    TwoSteps(d, s, first, AAck(m, env.ackApplied));
    actions := if worked then [first] + [] + [AAck(m, env.ackApplied)] else [first] + [];
  }

  /** The claims of one recoverPending, over any list of messages delivered earlier. */
  lemma {:induction false} ReclaimIsARun(d: Deployment, s: Sys, ms: seq<nat>, i: nat, envs: nat -> ClaimEnv)
    returns (actions: seq<Action>)
    requires i <= |ms| && AllDelivered(s.queue, ms)
    ensures var s' := After(d, s, actions); (s'.queue, s'.pg) == Reclaim(s.queue, s.pg, ms, i, envs)
    decreases |ms| - i
  {
    hide Next, ProcessMessage, After;
    AfterNothing(d, s);
    if i == |ms| {
      actions := [];
    } else {
      assert ms[i] in ms;
      if envs(i).idle && envs(i).claimed && envs(i).readBack {
        var first := WorkIsARun(d, s, ms[i], envs(i).work);
        ProcessedStayDelivered(s.queue, s.pg, ms[i], envs(i).work, ms);
        var rest := ReclaimIsARun(d, After(d, s, first), ms, i + 1, envs);
        actions := first + rest;
        AfterBoth(d, s, first, rest);
      } else {
        actions := ReclaimIsARun(d, s, ms, i + 1, envs);
      }
    }
  }

  lemma RecoverPendingIsARun(d: Deployment, s: Sys, envs: nat -> ClaimEnv) returns (actions: seq<Action>)
    ensures var s' := After(d, s, actions);
            (s'.queue, s'.pg)
            == Reclaim(s.queue, s.pg, Pending(s.queue, |s.queue.stream|, RECOVERY_BATCH), 0, envs)
  {
    hide After, Reclaim;
    actions := ReclaimIsARun(d, s, Pending(s.queue, |s.queue.stream|, RECOVERY_BATCH), 0, envs);
  }

  // ----- ProcessEvent -----

  /** From any point of the ingestion loop on: stores, and at most one recovery at the end. */
  lemma {:induction false} LoopIsARun(d: Deployment, s: Sys, loop: Ingestion.Loop, n: nat, sameCtx: bool,
                                      env: Ingestion.IngestEnv)
    returns (actions: seq<Action>)
    requires loop.db == s.db && Ingestion.Iterate(Ingestion.Again(loop), n, sameCtx, d.quota, env).Finished?
    ensures After(d, s, actions).db == Ingestion.Iterate(Ingestion.Again(loop), n, sameCtx, d.quota, env).db
    decreases n
  {
    hide Store, MoveToDLQ, After;
    var store := AStore(loop.event, env.attempts(loop.calls).store);
    var s1 := Next(d, s, store);
    var r := Store(s.db, d.quota, loop.event, env.attempts(loop.calls).store);
    assert s1.db == r.db;
    AfterCons(d, s, store, []);
    AfterNothing(d, s1);
    var t := Ingestion.Attempt(loop, sameCtx, d.quota, env);
    assert n > 0;
    if t.Again? {
      var rest := LoopIsARun(d, s1, t.loop, n - 1, sameCtx, env);
      actions := [store] + rest;
      AfterCons(d, s, store, rest);
    } else if r.result.Uncertain? && loop.uncertain + 1 >= 3 {
      var recover := ARecover(r.event, env.dlq);
      TwoSteps(d, s, store, recover);
      actions := [store] + [] + [recover];
    } else {
      actions := [store] + [];
    }
  }

  /** A ProcessEvent that ends is a run. */
  lemma ProcessEventIsARun(d: Deployment, s: Sys, cfg: Ingestion.Config, e: CanonicalEvent, sameCtx: bool,
                           env: Ingestion.IngestEnv, spill: seq<Payload>, n: nat)
    returns (actions: seq<Action>)
    requires var start := Ingestion.Start(s.db, Ingestion.Enrich(cfg, e), sameCtx, env, spill);
             Ingestion.Iterate(start, n, sameCtx, d.quota, env).Finished?
    ensures var start := Ingestion.Start(s.db, Ingestion.Enrich(cfg, e), sameCtx, env, spill);
            After(d, s, actions).db == Ingestion.Iterate(start, n, sameCtx, d.quota, env).db
  {
    hide After, Ingestion.Iterate;
    var start := Ingestion.Start(s.db, Ingestion.Enrich(cfg, e), sameCtx, env, spill);
    actions := LoopIsARun(d, s, start.loop, n, sameCtx, env);
  }
}

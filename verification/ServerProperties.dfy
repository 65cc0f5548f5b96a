/** Exactly which answer the handler gives, what a transaction does, and what becomes of a message that is
    processed or recovered (server/internal/api/ingest.go, server/internal/db/repository.go,
    server/internal/queue/consumer.go). */
module ServerProperties {
  import opened Wrappers
  import opened Events
  import opened Server

  // ----- The ingest handler -----

  /** A request the sender made as it should: one event of the tenant named, valid once stamped. */
  predicate Proper(req: Request, now: Time) {
    && req.post && req.tenantParam != ""
    && req.body.OneEvent? && req.body.event.tenantId == req.tenantParam
    && Validate(req.body.event.(receivedAt := now))
  }

  /** A proper request's event can be written unless its metadata cannot or a date lies outside the years 0 to
      9999. */
  predicate Writable(req: Request, now: Time)
    requires Proper(req, now)
  {
    req.body.event.metadata.Plain? && JsonTime(req.body.event.occurredAt.value) && JsonTime(now)
  }

  /** Each status from the request and the append. 400 is the sender's fault alone: it is given exactly for a POST
      without a tenant, with no single event, of another tenant, or of an event that fails the schema check, and so
      never for what the queue does; the agent buries an event on it. 500 is given exactly for a proper request
      whose event could not be written or whose append was not reported; the agent sends it again. */
  lemma HandlerAnswers(q: Queue, req: Request, now: Time, append: Append)
    ensures var status := ServeHTTP(q, req, now, append).1;
            && (status == MethodNotAllowed <==> !req.post)
            && (status == EntityTooLarge <==> req.post && req.tenantParam != "" && req.body.TooLarge?)
            && (status == BadRequest <==>
                  && req.post
                  && (|| req.tenantParam == ""
                      || req.body.NotOneEvent?
                      || (req.body.OneEvent?
                          && (req.body.event.tenantId != req.tenantParam
                              || !Validate(req.body.event.(receivedAt := now))))))
            && (status == InternalError <==> Proper(req, now) && (!Writable(req, now) || append != Appended))
            && (status == Accepted <==> Proper(req, now) && Writable(req, now) && append == Appended)
  {
    hide Validate;
    if req.body.OneEvent? { WritesIfWritable(req.body.event.(receivedAt := now)); }
  }

  lemma WritesIfWritable(e: CanonicalEvent)
    ensures Validate(e) ==>
              (Serialize(e) == if e.metadata.Plain? && JsonTime(e.occurredAt.value) && JsonTime(e.receivedAt)
                               then Some(Json(e)) else None)
  {
    if Validate(e) { ValidEventsRoundTrip(e); }
  }

  /** The queue gains exactly one entry, the stamped event's text, when a proper and writable event's append takes
      effect, reported or not, and is otherwise untouched; the answer does not depend on what it holds. */
  lemma HandlerQueues(q: Queue, q1: Queue, req: Request, now: Time, append: Append)
    ensures var (q', status) := ServeHTTP(q, req, now, append);
            && (if Proper(req, now) && Writable(req, now) && append != NotAppended
                then q'.dead == q.dead
                     && q'.stream
                        == q.stream + [Entry(Text(Json(req.body.event.(receivedAt := now))), false, false)]
                else q' == q)
            && ServeHTTP(q1, req, now, append).1 == status
  {
    hide Validate;
    if req.body.OneEvent? { WritesIfWritable(req.body.event.(receivedAt := now)); }
  }

  // ----- The transaction -----

  /** The row is written exactly for a new key when no statement fails and the commit takes effect; an alarming row
      brings its alert along, in the same transaction. The answer is success exactly for a known key or a reported
      commit, and says alert exactly for a reported commit of an alarming row. */
  lemma PersistExactly(pg: Pg, e: CanonicalEvent, env: PersistEnv)
    ensures var r := Persist(pg, e, env);
            var k := Key(e.tenantId, e.eventId);
            var alarming := e.severity in {Critical, Fatal};
            var written := !env.beginFails && !env.insertFails && k !in pg.events && !(alarming && env.alertFails);
            && r.pg.events == (if written && !env.commit.RolledBack? then pg.events[k := e] else pg.events)
            && r.pg.alerts == (if written && !env.commit.RolledBack? && alarming && k !in pg.alerts
                               then pg.alerts[k := e.severity] else pg.alerts)
            && (r.ok <==> (written && env.commit.Committed?)
                          || (!env.beginFails && !env.insertFails && k in pg.events))
            && (r.alert <==> written && env.commit.Committed? && alarming)
  {
  }

  // ----- One message -----

  /** Why a message cannot be persisted, read off its text. */
  function Reason(w: Wire): Option<Poison> {
    match w
    case NotAString => Some(BadType)
    case Text(Raw(_)) => Some(Unparsable)
    case Text(Json(e)) => if Validate(e) then None else Some(Invalid)
  }

  /** A message is acknowledged exactly when the one thing it needed has been reported done, persistence for a valid
      event and a dead letter with the right reason for anything else, and the acknowledgement arrives. The tables
      change for a valid event only, the dead-letter stream for anything else only, and no other message is
      touched. */
  lemma MessageExactly(q: Queue, pg: Pg, m: nat, env: WorkEnv)
    requires m < |q.stream|
    ensures var (q', pg') := ProcessMessage(q, pg, m, env);
            var reason := Reason(q.stream[m].wire);
            var done := if reason.Some? then env.deadLetter.Appended?
                        else Persist(pg, q.stream[m].wire.payload.event, env.persist).ok;
            && pg' == (if reason.Some? then pg else Persist(pg, q.stream[m].wire.payload.event, env.persist).pg)
            && q'.dead == (if reason.Some? && !env.deadLetter.NotAppended?
                           then q.dead + [DeadLetter(m, reason.value)] else q.dead)
            && q'.stream == (if done && env.ackApplied then q.stream[m := q.stream[m].(acked := true)] else q.stream)
  {
    hide Persist, Validate;
  }

  // ----- Recovery -----

  predicate IsPending(x: Entry) {
    x.delivered && !x.acked
  }

  /** How many of the first k messages are pending. */
  function PendingCount(q: Queue, k: nat): nat
    requires k <= |q.stream|
  {
    if k == 0 then 0 else PendingCount(q, k - 1) + if IsPending(q.stream[k - 1]) then 1 else 0
  }

  /** The list has the n oldest pending messages, oldest first. */
  lemma {:induction false} PendingExactly(q: Queue, k: nat, n: nat)
    requires k <= |q.stream|
    ensures var ms := Pending(q, k, n);
            && |ms| == (if PendingCount(q, k) <= n then PendingCount(q, k) else n)
            && (forall i, j | 0 <= i < j < |ms| :: ms[i] < ms[j])
            && (forall m: nat :: m in ms <==> m < k && IsPending(q.stream[m]) && PendingCount(q, m) < n)
  {
    if k > 0 {
      PendingExactly(q, k - 1, n);
      var ms := Pending(q, k - 1, n);
      assert forall i | 0 <= i < |ms| :: ms[i] in ms && ms[i] < k - 1;
    }
  }

  /** The message is idle, claimed and read back, and every statement works. */
  predicate Works(env: ClaimEnv) {
    && env.idle && env.claimed && env.readBack
    && env.work.deadLetter.Appended? && env.work.ackApplied
    && !env.work.persist.beginFails && !env.work.persist.insertFails && !env.work.persist.alertFails
    && env.work.persist.commit.Committed?
  }

  /** The message is acknowledged, and its event in the table or its dead letter in the stream. */
  ghost predicate Finished(q: Queue, pg: Pg, m: nat)
    requires m < |q.stream|
  {
    && q.stream[m].acked
    && match Reason(q.stream[m].wire)
       case None => KeyOf(q.stream[m].wire.payload.event) in pg.events
       case Some(p) => DeadLetter(m, p) in q.dead
  }

  /** What is done stays done. */
  ghost predicate Onward(q: Queue, pg: Pg, q': Queue, pg': Pg) {
    && |q'.stream| == |q.stream|
    && (forall m | 0 <= m < |q.stream| ::
          q'.stream[m] == q.stream[m] || q'.stream[m] == q.stream[m].(acked := true))
    && q.dead <= q'.dead
    && pg.events.Keys <= pg'.events.Keys
  }

  lemma MessageGoesOn(q: Queue, pg: Pg, m: nat, env: WorkEnv)
    requires m < |q.stream|
    ensures var (q', pg') := ProcessMessage(q, pg, m, env);
            && Onward(q, pg, q', pg')
            && (forall i | 0 <= i < |q.stream| && i != m :: q'.stream[i] == q.stream[i])
            && (Works(ClaimEnv(true, true, true, env)) ==> Finished(q', pg', m))
  {
    hide ProcessMessage, Persist, Validate;
    MessageExactly(q, pg, m, env);
    if Reason(q.stream[m].wire).None? { PersistExactly(pg, q.stream[m].wire.payload.event, env.persist); }
  }

  lemma StaysFinished(q: Queue, pg: Pg, q': Queue, pg': Pg, m: nat)
    requires m < |q.stream| && Onward(q, pg, q', pg') && Finished(q, pg, m)
    ensures Finished(q', pg', m)
  {
    hide Reason;
    assert q'.stream[m].wire == q.stream[m].wire;
  }

  lemma OnwardTransitive(q: Queue, pg: Pg, q1: Queue, pg1: Pg, q2: Queue, pg2: Pg)
    requires Onward(q, pg, q1, pg1) && Onward(q1, pg1, q2, pg2)
    ensures Onward(q, pg, q2, pg2)
  {
  }

  /** Of the listed messages, each that can be claimed and read with every statement working ends persisted or
      buried, and acknowledged; those that cannot be claimed or read, and all that are not listed, are as before. */
  lemma {:induction false} ReclaimFinishes(q: Queue, pg: Pg, ms: seq<nat>, i: nat, envs: nat -> ClaimEnv)
    requires i <= |ms| && forall m | m in ms :: m < |q.stream|
    requires forall a, b | 0 <= a < b < |ms| :: ms[a] != ms[b]
    ensures var (q', pg') := Reclaim(q, pg, ms, i, envs);
            && Onward(q, pg, q', pg')
            && (forall j | i <= j < |ms| && Works(envs(j)) :: ms[j] in ms && Finished(q', pg', ms[j]))
            && (forall m | 0 <= m < |q.stream|
                           && (forall j | i <= j < |ms| && ms[j] == m ::
                                 !(envs(j).idle && envs(j).claimed && envs(j).readBack)) ::
                  q'.stream[m] == q.stream[m])
    decreases |ms| - i
  {
    hide ProcessMessage, Finished, Onward;
    if i == |ms| {
      NothingDone(q, pg);
    } else {
      assert ms[i] in ms;
      if envs(i).idle && envs(i).claimed && envs(i).readBack {
        var (q1, pg1) := ProcessMessage(q, pg, ms[i], envs(i).work);
        MessageGoesOn(q, pg, ms[i], envs(i).work);
        OnwardLength(q, pg, q1, pg1);
        ReclaimFinishes(q1, pg1, ms, i + 1, envs);
        var (q', pg') := Reclaim(q1, pg1, ms, i + 1, envs);
        OnwardTransitive(q, pg, q1, pg1, q', pg');
        if Works(envs(i)) { StaysFinished(q1, pg1, q', pg', ms[i]); }
      } else {
        ReclaimFinishes(q, pg, ms, i + 1, envs);
      }
    }
  }

  lemma NothingDone(q: Queue, pg: Pg)
    ensures Onward(q, pg, q, pg)
  {
  }

  lemma OnwardLength(q: Queue, pg: Pg, q': Queue, pg': Pg)
    requires Onward(q, pg, q', pg')
    ensures |q'.stream| == |q.stream|
  {
  }

  /** The state after n recoveries. */
  function Recoveries(q: Queue, pg: Pg, n: nat, envs: (nat, nat) -> ClaimEnv): (r: (Queue, Pg))
    ensures |r.0.stream| == |q.stream|
  {
    if n == 0 then (q, pg)
    else
      var (q', pg') := Recoveries(q, pg, n - 1, envs);
      Reclaim(q', pg', Pending(q', |q'.stream|, RECOVERY_BATCH), 0, (j: nat) => envs(n - 1, j))
  }

  lemma {:induction false} Acknowledges(q: Queue, q': Queue, k: nat, n: nat)
    requires k <= |q.stream| == |q'.stream|
    requires forall m | 0 <= m < k && m in Pending(q, k, n) :: q'.stream[m].acked
    requires forall m | 0 <= m < k && m !in Pending(q, k, n) :: q'.stream[m] == q.stream[m]
    ensures PendingCount(q', k) == PendingCount(q, k) - |Pending(q, k, n)|
  {
    if k > 0 {
      assert forall m | 0 <= m < k - 1 :: m in Pending(q, k - 1, n) <==> m in Pending(q, k, n);
      Acknowledges(q, q', k - 1, n);
    }
  }

  lemma RecoveryTakesHundred(q: Queue, pg: Pg, envs: nat -> ClaimEnv)
    requires forall j: nat :: Works(envs(j))
    ensures var n := |q.stream|;
            var (q', pg') := Reclaim(q, pg, Pending(q, n, RECOVERY_BATCH), 0, envs);
            && Onward(q, pg, q', pg')
            && PendingCount(q', n) == (if PendingCount(q, n) <= 100 then 0 else PendingCount(q, n) - 100)
            && (forall m | 0 <= m < n && IsPending(q.stream[m]) :: IsPending(q'.stream[m]) || Finished(q', pg', m))
  {
    hide ProcessMessage, Reclaim, Pending, Works;
    var n := |q.stream|;
    var ms := Pending(q, n, RECOVERY_BATCH);
    var (q', pg') := Reclaim(q, pg, ms, 0, envs);
    PendingExactly(q, n, RECOVERY_BATCH);
    ReclaimFinishes(q, pg, ms, 0, envs);
    forall m | 0 <= m < n && m in ms ensures Finished(q', pg', m) {
      var j :| 0 <= j < |ms| && ms[j] == m;
    }
    Acknowledges(q, q', n, RECOVERY_BATCH);
  }

  /** While claims and statements work, each recovery settles the hundred oldest pending messages, so a backlog of
      any size is drained: of b pending messages n recoveries leave b - 100 n, and every message that is no longer
      pending is acknowledged and either persisted or buried. */
  lemma {:induction false} RecoveriesDrain(q: Queue, pg: Pg, n: nat, envs: (nat, nat) -> ClaimEnv)
    requires forall i: nat, j: nat :: Works(envs(i, j))
    ensures var (q', pg') := Recoveries(q, pg, n, envs);
            var before := PendingCount(q, |q.stream|);
            && Onward(q, pg, q', pg')
            && PendingCount(q', |q.stream|) == (if before <= 100 * n then 0 else before - 100 * n)
            && (forall m | 0 <= m < |q.stream| && IsPending(q.stream[m]) ::
                  IsPending(q'.stream[m]) || Finished(q', pg', m))
  {
    hide Reclaim, Pending, Works, Finished, Onward, IsPending;
    if n == 0 {
      NothingDone(q, pg);
    } else {
      var (q1, pg1) := Recoveries(q, pg, n - 1, envs);
      RecoveriesDrain(q, pg, n - 1, envs);
      RecoveryTakesHundred(q1, pg1, (j: nat) => envs(n - 1, j));
      var (q', pg') := Recoveries(q, pg, n, envs);
      OnwardTransitive(q, pg, q1, pg1, q', pg');
      forall m | 0 <= m < |q.stream| && IsPending(q.stream[m])
        ensures IsPending(q'.stream[m]) || Finished(q', pg', m)
      {
        if Finished(q1, pg1, m) { StaysFinished(q1, pg1, q', pg', m); }
      }
    }
  }
}

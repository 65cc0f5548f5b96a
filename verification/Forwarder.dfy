/** The forwarder and the worker in their own form, and the proof that their uninterrupted calls are runs
    of the pipeline machine (agent/internal/forwarder/forwarder.go, server/internal/queue/consumer.go). */
module Forwarding {
  import opened Wrappers
  import opened Events
  import opened Storage
  import opened SQLite
  import opened Server
  import opened Pipeline

  datatype NetworkState = NetworkUnknown | NetworkOnline | NetworkOffline

  /** What the network does with one request: it cannot be built, it fails, or a status comes back with
      the value of its Retry-After header, when that is a number. */
  datatype Exchange =
    | NotBuilt
    | Failed(canceled: bool)
    | Answered(status: Status, retryAfter: Option<int>)

  const TOO_MANY_REQUESTS := OtherStatus(429)

  function RetryAfterOf(x: Exchange): int {
    if x.Answered? && x.status == TOO_MANY_REQUESTS && x.retryAfter.Some? then x.retryAfter.value else 0
  }

  /** The store after one event was handled. */
  function AfterSend(db: Db, e: CanonicalEvent, tenantId: string, x: Exchange, env: TxEnv, now: Time, nanos: nat,
                     fate: Fate): Db {
    var retry := RetryEnv(RetryAfterOf(x), now, nanos, fate);
    if e.tenantId != tenantId then MoveToDLQ(db, e, TenantMismatch, env).db
    else if !Encodable(e) then MoveToDLQ(db, e, SerializationError, env).db
    else if x.Answered? then Respond(db, e, x.status, env, retry)
    else Retry(db, e, retry)
  }

  /** The network state after one event was handled: only a request that was sent changes it. */
  function NetworkAfter(net: NetworkState, e: CanonicalEvent, tenantId: string, x: Exchange): NetworkState {
    if e.tenantId != tenantId || !Encodable(e) then net
    else
      match x
      case NotBuilt => net
      case Failed(canceled) => if canceled then net else NetworkOffline
      case Answered(_, _) => NetworkOnline
  }

  class Forwarder {
    const tenantId: string
    const storage: SQLiteStorage
    var networkState: NetworkState

    constructor (tenantId: string, storage: SQLiteStorage)
      ensures this.tenantId == tenantId && this.storage == storage && networkState == NetworkUnknown
    {
      this.tenantId, this.storage, networkState := tenantId, storage, NetworkUnknown;
    }

    method SendEvent(e: CanonicalEvent, x: Exchange, env: TxEnv, now: Time, nanos: nat, fate: Fate)
      modifies this, storage
      ensures storage.Contents()
              == AfterSend(old(storage.Contents()), e, tenantId, x, env, now, nanos, fate)
      ensures networkState == NetworkAfter(old(networkState), e, tenantId, x)
    {
      hide Storage.MoveToDLQ, Storage.MarkFailed, Storage.RemoveEvent;
      var ok;
      if e.tenantId != tenantId {
        ok := storage.MoveToDLQ(e, TenantMismatch, env);
        return;
      }
      var payload := Serialize(e);
      if payload.None? {
        ok := storage.MoveToDLQ(e, SerializationError, env);
        return;
      }
      match x {
        case NotBuilt =>
          ok := storage.MarkFailed(e.eventId, 0, now, nanos, fate);
          return;
        case Failed(canceled) =>
          if !canceled {
            networkState := NetworkOffline;
          }
          ok := storage.MarkFailed(e.eventId, 0, now, nanos, fate);
          return;
        case Answered(status, header) =>
          networkState := NetworkOnline;
          if status == Accepted {
            ok := storage.RemoveEvent(e.eventId, env);
            return;
          }
          if status == BadRequest {
            ok := storage.MoveToDLQ(e, Http400, env);
            return;
          }
          var retryAfter := 0;
          if status == TOO_MANY_REQUESTS && header.Some? {
            retryAfter := header.value;
          }
          ok := storage.MarkFailed(e.eventId, retryAfter, now, nanos, fate);
      }
    }

    /** Fetches a batch and hands its events to SendEvent in order, until stopped. */
    method ProcessPending(now: Time, fetch: FetchEnv, exchanges: nat -> Exchange, envs: nat -> TxEnv, nanos: nat,
                          fates: nat -> Fate, stopAfter: nat)
      modifies this, storage
      ensures var r := GetPendingEvents(old(storage.Contents()), now, 50, fetch);
              (storage.Contents(), networkState)
              == match r.events
                 case None => (r.db, old(networkState))
                 case Some(es) =>
                   SendAll(r.db, old(networkState), es, 0, tenantId, exchanges, envs, now, nanos, fates, stopAfter)
    {
      hide AfterSend, NetworkAfter, Storage.GetPendingEvents;
      var fetched := storage.GetPendingEvents(now, 50, fetch);
      if fetched.None? {
        return;
      }
      var es := fetched.value;
      ghost var goal := SendAll(storage.Contents(), networkState, es, 0, tenantId, exchanges, envs, now, nanos, fates,
                                stopAfter);
      for i := 0 to |es|
        invariant goal == SendAll(storage.Contents(), networkState, es, i, tenantId, exchanges, envs, now, nanos, fates,
                                  stopAfter)
      {
        if i >= stopAfter {
          return;
        }
        SendEvent(es[i], exchanges(i), envs(i), now, nanos, fates(i));
      }
    }
  }

  /** Events from the i-th on, one after the other; stopAfter of them at most. */
  function SendAll(db: Db, net: NetworkState, es: seq<CanonicalEvent>, i: nat, tenantId: string,
                   exchanges: nat -> Exchange, envs: nat -> TxEnv, now: Time, nanos: nat, fates: nat -> Fate,
                   stopAfter: nat): (Db, NetworkState)
    requires i <= |es|
    decreases |es| - i
  {
    if i == |es| || i >= stopAfter then (db, net)
    else SendAll(AfterSend(db, es[i], tenantId, exchanges(i), envs(i), now, nanos, fates(i)),
                 NetworkAfter(net, es[i], tenantId, exchanges(i)), es, i + 1, tenantId, exchanges, envs, now, nanos,
                 fates, stopAfter)
  }

  /** The actions of one SendEvent: the send step, whatever the handler does with the request, if it arrives,
      and then either its answer is received or the event is retried later. */
  function SendActions(e: CanonicalEvent, arrives: bool, fits: bool, served: Time, append: Append,
                       received: Option<Status>,
                       env: TxEnv, retry: RetryEnv): seq<Action>
  {
    [ASend(env)]
    + (if arrives then [AServe(e, fits, served, append)] else [])
    + [if received.Some? then AReceive(received.value, env, retry) else AGiveUp(retry)]
  }

  /** A SendEvent whose request the handler answers is a run of the machine: the answer the handler gives to
      this very request is received, whichever it is, first send or not. */
  lemma AnsweredSendIsARun(d: Deployment, s: Sys, fits: bool, served: Time, append: Append, header: Option<int>,
                           env: TxEnv, now: Time, nanos: nat, fate: Fate)
    requires s.batch != [] && s.awaiting.None?
    ensures var e := s.batch[0];
            var status := ServeHTTP(s.queue, RequestFor(e, d.tenantId, fits), served, append).1;
            var s' := After(d, s, SendActions(e, true, fits, served, append, Some(status), env,
                                              RetryEnv(0, now, nanos, fate)));
            && s'.db == AfterSend(s.db, e, d.tenantId, Answered(status, header), env, now, nanos, fate)
            && s'.batch == s.batch[1..] && s'.awaiting.None?
  {
    hide MoveToDLQ, Respond, Retry, ServeHTTP;
    var e := s.batch[0];
    var (q, status) := ServeHTTP(s.queue, RequestFor(e, d.tenantId, fits), served, append);
    HandlerStatus(s.queue, RequestFor(e, d.tenantId, fits), served, append);
    var retry := RetryEnv(0, now, nanos, fate);
    var s1 := Next(d, s, ASend(env));
    var s2 := Next(d, s1, AServe(e, fits, served, append));
    ThreeSteps(d, s, ASend(env), AServe(e, fits, served, append), AReceive(status, env, retry));
    assert s2.db == s1.db && s2.batch == s1.batch && s2.awaiting == s1.awaiting;
  }

  /** A SendEvent that ends otherwise is a run of the machine too: a request that could not be built or failed,
      whether it arrived or not, and any status but 202 and 400, whoever gives it, 429 included. */
  lemma UnansweredSendIsARun(d: Deployment, s: Sys, x: Exchange, arrives: bool, fits: bool, served: Time,
                             append: Append,
                             env: TxEnv, now: Time, nanos: nat, fate: Fate)
    requires s.batch != [] && s.awaiting.None?
    requires x.Answered? ==> x.status != Accepted && x.status != BadRequest
    ensures var e := s.batch[0];
            var s' := After(d, s, SendActions(e, arrives, fits, served, append, None, env,
                                              RetryEnv(RetryAfterOf(x), now, nanos, fate)));
            && s'.db == AfterSend(s.db, e, d.tenantId, x, env, now, nanos, fate)
            && s'.batch == s.batch[1..] && s'.awaiting.None?
  {
    hide ServeHTTP, Next, AfterSend;
    var e := s.batch[0];
    var retry := RetryEnv(RetryAfterOf(x), now, nanos, fate);
    GivesUp(d, s, Next(d, s, ASend(env)), x, env, retry);
    if arrives {
      ThreeSteps(d, s, ASend(env), AServe(e, fits, served, append), AGiveUp(retry));
      ServedAside(d, Next(d, s, ASend(env)), e, fits, served, append);
      GivesUp(d, s, Next(d, Next(d, s, ASend(env)), AServe(e, fits, served, append)), x, env, retry);
    } else {
      TwoSteps(d, s, ASend(env), AGiveUp(retry));
    }
  }

  /** Serving a request leaves the agent alone. */
  lemma ServedAside(d: Deployment, s: Sys, e: CanonicalEvent, fits: bool, served: Time, append: Append)
    ensures var s' := Next(d, s, AServe(e, fits, served, append));
            s'.db == s.db && s'.batch == s.batch && s'.awaiting == s.awaiting
  {
    hide ServeHTTP;
  }

  lemma GivesUp(d: Deployment, s: Sys, s1: Sys, x: Exchange, env: TxEnv, retry: RetryEnv)
    requires s.batch != [] && s.awaiting.None? && retry.retryAfter == RetryAfterOf(x)
    requires x.Answered? ==> x.status != Accepted && x.status != BadRequest
    requires var t := Next(d, s, ASend(env)); s1.db == t.db && s1.batch == t.batch && s1.awaiting == t.awaiting
    ensures var s' := Next(d, s1, AGiveUp(retry));
            && s'.db == AfterSend(s.db, s.batch[0], d.tenantId, x, env, retry.now, retry.nanos, retry.fate)
            && s'.batch == s.batch[1..] && s'.awaiting.None?
  {
    hide MoveToDLQ, Retry;
  }

  lemma HandlerStatus(q: Queue, req: Request, now: Time, append: Append)
    ensures !ServeHTTP(q, req, now, append).1.OtherStatus?
  {
  }

  /** One ProcessMessage is a run of the machine: persist or dead-letter, then acknowledge if that worked. */
  lemma ProcessMessageIsARun(d: Deployment, s: Sys, m: nat, env: WorkEnv)
    requires m < |s.queue.stream| && s.queue.stream[m].delivered
    ensures var healthy := Healthy(s.queue.stream[m].wire);
            var s1 := Next(d, s, if healthy then APersist(m, env.persist) else ABury(m, env.deadLetter));
            var worked := if healthy then Persist(s.pg, Parse(s.queue.stream[m].wire).0, env.persist).ok
                          else env.deadLetter.Appended?;
            var s2 := if worked then Next(d, s1, AAck(m, env.ackApplied)) else s1;
            (s2.queue, s2.pg) == ProcessMessage(s.queue, s.pg, m, env)
  {
    hide Persist, TookEffect;
  }
}

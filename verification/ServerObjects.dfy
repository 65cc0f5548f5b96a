/** The server side in its own form: objects whose methods change the tables and the stream step by step,
    each proved to do what the function of the same name in module Server says. */
module ServerObjects {
  import opened Wrappers
  import opened Events
  import opened Server

  class Repository {
    var events: map<Key, CanonicalEvent>
    var alerts: map<Key, Severity>

    function Contents(): Pg
      reads this
    {
      Pg(events, alerts)
    }

    constructor ()
      ensures Contents() == EMPTY_PG
    {
      events, alerts := map[], map[];
    }

    /** One transaction: the event unless its key exists, and an alert if it is alarming. */
    method PersistEvent(e: CanonicalEvent, env: PersistEnv) returns (alertGenerated: bool, ok: bool)
      modifies this
      ensures var r := Persist(old(Contents()), e, env);
              Contents() == r.pg && alertGenerated == r.alert && ok == r.ok
    {
      if env.beginFails || env.insertFails {
        return false, false;
      }
      if KeyOf(e) in events {
        return false, true;
      }
      var newEvents, newAlerts := events[KeyOf(e) := e], alerts;
      alertGenerated := false;
      if e.severity == Critical || e.severity == Fatal {
        if env.alertFails {
          return false, false;
        }
        if KeyOf(e) !in newAlerts {
          newAlerts := newAlerts[KeyOf(e) := e.severity];
        }
        alertGenerated := true;
      }
      if !env.commit.RolledBack? {
        events, alerts := newEvents, newAlerts;
      }
      if !env.commit.Committed? {
        return false, false;
      }
      return alertGenerated, true;
    }
  }

  class Valkey {
    var stream: seq<Entry>
    var dead: seq<DeadLetter>

    function Contents(): Queue
      reads this
    {
      Queue(stream, dead)
    }

    constructor ()
      ensures Contents() == EMPTY_QUEUE
    {
      stream, dead := [], [];
    }

    method XAdd(wire: Wire, env: Append) returns (ok: bool)
      modifies this`stream
      ensures stream == if env.NotAppended? then old(stream) else old(stream) + [Entry(wire, false, false)]
      ensures ok <==> env.Appended?
    {
      if !env.NotAppended? {
        stream := stream + [Entry(wire, false, false)];
      }
      ok := env.Appended?;
    }

    method XAck(m: nat, applied: bool)
      requires m < |stream|
      modifies this`stream
      ensures Contents() == Ack(old(Contents()), m, applied)
    {
      if applied {
        stream := stream[m := stream[m].(acked := true)];
      }
    }
  }

  class Producer {
    const client: Valkey

    constructor (client: Valkey)
      ensures this.client == client
    {
      this.client := client;
    }

    method Publish(e: CanonicalEvent, env: Append) returns (ok: bool)
      modifies client
      ensures (client.Contents(), ok) == Server.Publish(old(client.Contents()), e, env)
    {
      var data := Serialize(e);
      if data.None? {
        return false;
      }
      ok := client.XAdd(Text(data.value), env);
    }
  }

  class IngestHandler {
    const producer: Producer

    constructor (producer: Producer)
      ensures this.producer == producer
    {
      this.producer := producer;
    }

    /** 202 only after the event is queued. */
    method ServeHTTP(req: Request, now: Time, env: Append) returns (status: Status)
      modifies producer.client
      ensures (producer.client.Contents(), status) == Server.ServeHTTP(old(producer.client.Contents()), req, now, env)
    {
      if !req.post {
        return MethodNotAllowed;
      }
      if req.tenantParam == "" {
        return BadRequest;
      }
      match req.body {
        case TooLarge => return EntityTooLarge;
        case NotOneEvent => return BadRequest;
        case OneEvent(e) =>
          if e.tenantId != req.tenantParam {
            return BadRequest;
          }
          var event := e.(receivedAt := now);
          if !Validate(event) {
            return BadRequest;
          }
          var ok := producer.Publish(event, env);
          return if ok then Accepted else InternalError;
      }
    }
  }

  class Consumer {
    const client: Valkey
    const repo: Repository

    constructor (client: Valkey, repo: Repository)
      ensures this.client == client && this.repo == repo
    {
      this.client, this.repo := client, repo;
    }

    method SendToDLQ(m: nat, p: Poison, env: Append) returns (ok: bool)
      modifies client`dead
      ensures (client.Contents(), ok) == Server.SendToDLQ(old(client.Contents()), m, p, env)
    {
      if !env.NotAppended? {
        client.dead := client.dead + [DeadLetter(m, p)];
      }
      ok := env.Appended?;
    }

    /** Acknowledges only after the event is persisted or the message dead-lettered. */
    method ProcessMessage(m: nat, env: WorkEnv)
      requires m < |client.stream|
      modifies client, repo
      ensures (client.Contents(), repo.Contents())
              == Server.ProcessMessage(old(client.Contents()), old(repo.Contents()), m, env)
    {
      var poison: Option<Poison> := None;
      var event := BLANK;
      match client.stream[m].wire {
        case NotAString => poison := Some(BadType);
        case Text(payload) =>
          var decoded := Deserialize(payload);
          if decoded.None? {
            poison := Some(Unparsable);
          } else {
            event := decoded.value;
            if !Validate(event) {
              poison := Some(Invalid);
            }
          }
      }
      if poison.Some? {
        var sent := SendToDLQ(m, poison.value, env.deadLetter);
        if sent {
          client.XAck(m, env.ackApplied);
        }
        return;
      }
      var _, ok := repo.PersistEvent(event, env.persist);
      if !ok {
        return;
      }
      client.XAck(m, env.ackApplied);
    }

    /** Claims and processes messages other workers left pending, in a bounded batch. */
    method RecoverPending(envs: nat -> ClaimEnv)
      modifies client, repo
      ensures var q := old(client.Contents());
              (client.Contents(), repo.Contents())
              == Reclaim(q, old(repo.Contents()), Pending(q, |q.stream|, RECOVERY_BATCH), 0, envs)
    {
      hide Server.ProcessMessage;
      var pending := Pending(client.Contents(), |client.stream|, RECOVERY_BATCH);
      ghost var goal := Reclaim(client.Contents(), repo.Contents(), pending, 0, envs);
      for i := 0 to |pending|
        invariant forall m | m in pending :: m < |client.stream|
        invariant goal == Reclaim(client.Contents(), repo.Contents(), pending, i, envs)
      {
        assert pending[i] in pending;
        if envs(i).idle {
          if !envs(i).claimed {
            continue;
          }
          if envs(i).readBack {
            SameLength(client.Contents(), repo.Contents(), pending[i], envs(i).work);
            ProcessMessage(pending[i], envs(i).work);
          }
        }
      }
    }

    static lemma SameLength(q: Queue, pg: Pg, m: nat, env: WorkEnv)
      requires m < |q.stream|
      ensures |Server.ProcessMessage(q, pg, m, env).0.stream| == |q.stream|
    {
    }
  }
}

# Event pipeline: a Dafny model and its proofs

The agent records telemetry in a local SQLite store, forwards it over HTTP to an ingest handler, which appends it
to a Valkey stream, from which workers write it to Postgres and raise alerts. Beside the pipeline the agent runs a
resource governor, a process lifecycle engine, a passive packet decoder and a local detection engine. This project
models these parts and proves what they are for: no event is lost, none takes effect twice, the governor does not
flap, the process ledger balances, and the decoder recognises exactly the frames of its wire format.

Every fault is an argument. Clocks, file sizes, statement failures, commits that are rolled back or succeed without
being reported, lost responses, duplicate sends, crashes and claims by other workers are parameters of the
functions or actions of the machines, so each theorem holds for every choice of them.

Where the source changes state step by step, there is a class whose methods do the same on fields, and each method
is proved to do exactly what a function on values says. The properties are then proved of those functions: first
what each of them answers, with the exact condition of every case and its numbers written out,
then what follows over whole calls and runs.

| files | what they model |
|---|---|
| `Events`, `Floats`, `Numerals`, `Wrappers` | the canonical event and its schema check, IEEE comparison rules, decimal text |
| `Storage`, `QuotaProperties`, `StorageProperties`, `StorageRuns`, `SQLiteStorage` | the agent's two-table store |
| `Ingestion`, `IngestionProperties`, `IngestionEngine` | the bounded retry loop and its recovery ladder |
| `Server`, `ServerProperties`, `ServerObjects` | ingest handler, stream, worker, Postgres |
| `Pipeline`, `PipelineContent`, `PipelineReuse`, `PipelineCalls`, `Forwarder`, `ForwarderProperties` | the whole pipeline as one machine, its end-to-end theorems, and what becomes of each event sent |
| `Governor`, `GovernorProperties`, `Gauges`, `Coordinator`, `GovernorObjects` | governor, metrics, coordinator |
| `ProcessModel`, `ProcessStat`, `ProcessCapture`, `Lifecycle`, `LifecycleProperties`, `LifecycleConcurrency`, `LifecycleObjects` | process identity and lifecycle |
| `Packets`, `Normalizer`, `NormalizerProperties`, `Modbus`, `PassiveNetwork`, `PassiveNetworkObjects` | the passive decoder |
| `Detection` | rule evaluation and finding identity |

`dafny verify dfyconfig.toml` checks the whole project.

## What the proofs turned up

- `validateConfig` compares with `<` and `>`, which are false for NaN, so it accepts NaN thresholds and margins.
  Its verdict then need not be a fixpoint (`GovernorProperties.NaNMarginIsAccepted` has such a configuration).
  `GovernorProperties.FixpointExactlyIfStable` gives the exact condition and
  `GovernorProperties.UnstableFlapsForever` a run that changes state forever under constant signals.
- `ProcessEvent` ends for every behaviour of the store exactly when its two contexts are distinct or the event has
  no id (`Ingestion.EndsExactlyWhenContextsDiffer`); with one context passed twice a store that answers "canceled"
  keeps the loop going.
- After an uncertain attempt, FAILED_BEFORE_COMMIT proves neither presence nor absence
  (`Ingestion.FailureAfterUncertainIsOpen`).
- Sequence numbers are unique among live rows only: a dead letter can keep a number that a later event is given
  (`Ingestion.DeadLetterNumberIsReused`), exactly if the number was not below the counter when the event was moved
  (`StorageRuns.DeadLetterNumberGivenExactly`).
- An id used for two events can lose the second one although its Store succeeded, exactly if their contents differ
  (`PipelineReuse.ReuseLosesContentExactly`). No failure is needed: once the first was sent and removed, the second
  is stored and sent as well, and Postgres keeps the first. With a pruned row the first event's 202 even removes the
  second one's row before it is sent (`PipelineContent.ReusedIdLosesContent`). An id used for one event never loses
  it (`PipelineContent.NoContentIsLost`).
- The lifecycle engine emits after releasing its lock, so an exit can overtake its start on the channel
  (`LifecycleConcurrency.ChannelOrderCanInvert`). The balance still holds once all emits are delivered; alternation
  holds exactly if the identity's emits arrive in the order decided (`LifecycleConcurrency.ChannelAlternatesExactly`).
- `UnixNano` wraps, so identity keys collide exactly for start times a multiple of 2^64 nanoseconds apart
  (`ProcessModel.KeysEqualExactly`, `ProcessStat.ReusedPidCanShareKey`). Then the order of a snapshot shows in what
  is emitted (`LifecycleProperties.PermutationsAgreeExactly`).
- A TCP segment with a bad data offset is refused as Unsupported by the normalizer, but when its ports hint at a
  protocol the collector reports the same frame as Inferred (`PassiveNetwork.RefusedYetInferredExactly` gives the
  bytes, `PassiveNetwork.DamagedCaptureIsInferred` a capture), although the comment at
  agent/internal/collectors/passivenetwork/normalizer.go:14 says malformed packets are not reinterpreted.
- The coordinator's comment says the gauges are fed from the exact same measurements as the governor. A gauge that
  refuses its update keeps the old value while the governor is given the new one: a CPU reading above 100, a write
  rate of NaN, which also holds back the storage used, and an oldest age of NaN, which also holds back the queue
  saturation (`Coordination.GaugesShowTheSignals`, `Coordination.GaugesCanGoStale`).
- `Validate` accepts dates outside the years 0 to 9999, which JSON cannot name (`Events.ValidEventsCanBeUnwritable`).
- `Validate` mirrors the widths of the Postgres columns so that no worker retries an event that cannot fit. It does
  not ask for the code zero, which no text column takes (`Events.ValidEventsFitExactly`).
- The Modbus fixture's length field wraps at 16 bits, so payloads of 65534 and 65535 data bytes are not decoded
  (`Modbus.BuiltPayloadRoundTrip`).
- Clock rates above 10^9 ticks a second make start times collide (`ProcessStat.TicksAreToldApart`).
- A colon in a rule's id or version lets another rule share its findings, and only that does
  (`Detection.FindingIsOwnExactly`).

## Model

| member | source | states |
|---|---|---|
| Pipeline.NoEventIsLost | agent/internal/forwarder/forwarder.go:154-236 | In every reachable state of the whole pipeline, under any interleaving and any faults, an id that ever entered the agent's events table is in that table, in the dead-letter queue, was deleted by the quota sweep and not stored since, is on the stream in a valid unacknowledged message, or is in Postgres |
| Pipeline.AcceptedStaysSafe | server/internal/api/ingest.go:68-89 | After a 202 for an event every later state has its (tenant, id) on the stream unacknowledged or in Postgres |
| Pipeline.AcknowledgedIsSettled | server/internal/queue/consumer.go:183-225 | An acknowledged message is in Postgres or, if unparsable or invalid, in the dead-letter stream; a message the handler published is never dead-lettered |
| Pipeline.PostgresIsExactlyOnce | server/internal/db/repository.go:27-88 | In every run Postgres holds exactly the first effective delivery per (tenant, id), with one alert exactly for each CRITICAL or FATAL row |
| Pipeline.RunKeepsSysInv | server/internal/queue/consumer.go:120-225 | The invariant of the agent, the server and the tables holds in every reachable state |
| PipelineContent.NoContentIsLost | agent/internal/forwarder/forwarder.go:154-236 | If one id is used for one event only, not forged, and its text does not rot, the surviving place holds that event, equal but for its number and receipt time, whatever happens under other ids |
| PipelineReuse.ReuseLosesContentExactly | server/internal/db/repository.go:27-88 | For any two events the pipeline accepts under one id: some run that uses only them under it stores the second with success and ends with its content nowhere and not pruned, if and only if their contents differ |
| PipelineReuse.DifferentContentsAreLost | server/internal/db/repository.go:40-60 | Such a run, without a failure: store, send, 202 and removal of one after the other, then the worker, which keeps the first |
| PipelineReuse.EqualContentsAreKept | agent/internal/storage/sqlite.go:227-254 | With equal contents every such run keeps it |
| PipelineContent.ReusedIdLosesContent | agent/internal/forwarder/forwarder.go:199-208 | An example with a pruned row: the first event's 202 removes the second event's row before it is ever sent |
| Forwarding.Forwarder.SendEvent | agent/internal/forwarder/forwarder.go:154-236 | One send leaves the store and the network state exactly as the response protocol says: tenant mismatch, serialization failure and 400 dead-letter, 202 removes, everything else postpones, Retry-After only on 429 |
| Forwarding.Forwarder.ProcessPending | agent/internal/forwarder/forwarder.go:137-152 | The batch of at most 50 is sent in order until stopped, with the store and the network state it leaves; a failed fetch sends nothing |
| ForwardingProperties.SendDecides | agent/internal/forwarder/forwarder.go:154-236 | What one send makes of its event in the two tables, for every event, answer and fate: after a 400 and for another tenant it is in the dead-letter queue alone, with its number, text and reason; after a 202 it is in neither; on everything else its row stays with one attempt more and waits, as long as asked only by a 429; nothing else in the store is touched |
| ForwardingProperties.NetworkExactly | agent/internal/forwarder/forwarder.go:187-196 | Online exactly after an answer, whichever it is, offline exactly after a failure that was not a cancellation |
| ForwardingProperties.BatchIsIndependent | agent/internal/forwarder/forwarder.go:146-151 | In a batch every event that is sent meets the fate of its own exchange, as if sent alone; the events after the stop and everything else stay as they are |
| ForwardingProperties.ProcessPendingDecides | agent/internal/forwarder/forwarder.go:137-236 | From the fetch to the last send: each event of the batch up to the stop ends in the table its own answer decides, and every other decodable row is as it was |
| ForwardingProperties.OutagesNeverBury | server/internal/api/ingest.go:31-90 | Agent and handler together: an event sent is dead-lettered exactly if the schema check refuses it or no tenant is named, deleted exactly if its text was appended and that was reported, and otherwise, as on every outage of the queue, its row stays for a later attempt |
| Forwarding.AnsweredSendIsARun | agent/internal/forwarder/forwarder.go:154-236 | A SendEvent whose request the handler answers, first send or not, is a run of the pipeline machine for every fate of every statement |
| Forwarding.UnansweredSendIsARun | agent/internal/forwarder/forwarder.go:180-236 | So is one that fails, arriving or not, or ends in any status but 202 and 400, 429 included |
| Pipeline.RunThenAfter | agent/internal/forwarder/forwarder.go:137-236 | Such a run appended to any run is a run, so the end-to-end theorems cover it |
| PipelineCalls.ProcessPendingIsARun | agent/internal/forwarder/forwarder.go:137-152 | A whole ProcessPending, from the fetch to the last send, is a run of the machine, if every 202 and 400 is the handler's answer to its request |
| PipelineCalls.RecoverPendingIsARun | server/internal/queue/consumer.go:120-161 | A whole recoverPending is a run of the machine |
| PipelineCalls.ProcessEventIsARun | agent/internal/ingestion/engine.go:94-214 | A ProcessEvent that ends is a run of the machine |
| Forwarding.ProcessMessageIsARun | server/internal/queue/consumer.go:183-225 | An uninterrupted processMessage is a run of the pipeline machine |
| Server.ExactlyOnceEffect | server/internal/db/repository.go:27-88 | After any sequence of deliveries with any faults the tables are those of the first effective occurrences, with matching alerts |
| Server.FirstOccurrencesUnique | server/internal/db/repository.go:27-88 | The effective deliveries determine the events table |
| Server.PersistStep | server/internal/db/repository.go:27-88 | One transaction keeps first occurrences and alerts, never changes a stored row, changes nothing on a known key, and an ok answer means the event is in the table |
| ServerProperties.PersistExactly | server/internal/db/repository.go:27-88 | Exactly when the row is written, when the alert comes with it, when the answer is success and when it says alert, CRITICAL and FATAL named |
| Events.ValidEventsRoundTrip | pkg/events/canonical.go:54-134 | What passes the schema check serializes unless its metadata cannot or a date lies outside the years 0 to 9999, and reads back as itself |
| Events.ValidEventsCanBeUnwritable | pkg/events/canonical.go:71-78 | An event of the year 10000 passes the check and cannot be serialized |
| Events.ValidExactly | pkg/events/canonical.go:71-134 | Each requirement of the schema check, with its numbers |
| Events.ValidEventsFitExactly | pkg/events/canonical.go:98-115 | A valid event fits the columns of server/migrations/001_initial_events.sql, which the check mirrors, exactly if its free texts contain no code zero |
| ServerObjects.Repository.PersistEvent | server/internal/db/repository.go:27-88 | The transaction changes both tables together or not at all, returns early on a conflict, and reports an alert only for a committed alarming row |
| ServerObjects.Producer.Publish | server/internal/queue/producer.go:24-43 | A serializable event is appended once; the append may land although an error is returned |
| ServerObjects.Valkey.XAdd | server/internal/queue/producer.go:24-43 | One entry at the end of the stream or none, with or without an error |
| ServerObjects.IngestHandler.ServeHTTP | server/internal/api/ingest.go:31-90 | Every status code for every request, and the stream afterwards; 202 only after a successful append of the stamped, validated event |
| ServerProperties.HandlerAnswers | server/internal/api/ingest.go:31-90 | Each of the five statuses with its exact condition on the request and the append: 400 exactly for a POST without tenant, single event, right tenant or validity, so never for what the queue does; 500 exactly for a proper request whose event could not be written or whose append was not reported |
| ServerProperties.HandlerQueues | server/internal/api/ingest.go:68-89 | The queue gains exactly the stamped text of a proper, writable event whose append takes effect, and is untouched otherwise; no answer depends on what the queue holds |
| ServerObjects.Consumer.ProcessMessage | server/internal/queue/consumer.go:183-225 | Persist or dead-letter first, acknowledge only if that worked |
| ServerObjects.Valkey.XAck | server/internal/queue/consumer.go:183-225 | An acknowledgement marks one entry or is lost |
| ServerObjects.Consumer.RecoverPending | server/internal/queue/consumer.go:120-161 | Claims and processes, in order, those of the first hundred pending messages that are idle, claimable and readable |
| ServerProperties.MessageExactly | server/internal/queue/consumer.go:183-225 | A message is acknowledged exactly when persistence of a valid event, or the dead letter with the right reason for anything else, was reported and the acknowledgement arrives; tables, dead letters and stream afterwards |
| ServerProperties.PendingExactly | server/internal/queue/consumer.go:121-134 | The listing has the oldest pending messages, oldest first, as many as asked for |
| ServerProperties.ReclaimFinishes | server/internal/queue/consumer.go:136-161 | Every listed message that can be claimed and read with its statements working ends persisted or dead-lettered and acknowledged, whatever happens to the others; the rest are as before |
| ServerProperties.RecoveriesDrain | server/internal/queue/consumer.go:120-161 | While claims and statements work, n recoveries leave b - 100 n of b pending messages, and every message no longer pending is acknowledged and persisted or dead-lettered |
| Pipeline.ServeAppends | server/internal/api/ingest.go:31-90 | The handler leaves the stream alone or appends one healthy message with the sender's key, and says 202 only in the latter case |
| SQLite.SQLiteStorage.constructor | agent/internal/storage/sqlite.go:44-50 | A new store is empty and numbers from 1 |
| SQLite.SQLiteStorage.Store | agent/internal/storage/sqlite.go:215-317 | The imperative Store, all error returns included, changes the tables, counter and event exactly as the specification function |
| SQLite.SQLiteStorage.EnforceQuota | agent/internal/storage/sqlite.go:319-389 | The nested pruning loops end for every sequence of size readings and compute the specified sweep |
| SQLite.SQLiteStorage.SettlePressure | agent/internal/storage/sqlite.go:372-388 | What is decided once no class is left: EMERGENCY, with CRITICAL and FATAL let through, or OK unless the column was never set |
| SQLite.SQLiteStorage.MoveRawToDLQLocked | agent/internal/storage/sqlite.go:502-537 | The move between the tables is one transaction: both changes or none |
| SQLite.SQLiteStorage.MoveToDLQ | agent/internal/storage/sqlite.go:706-715 | Moves an event that can be serialized under its text; refuses one that cannot |
| SQLite.SQLiteStorage.RemoveEvent | agent/internal/storage/sqlite.go:539-547 | Deletes the row of the id, or nothing |
| SQLite.SQLiteStorage.MarkFailed | agent/internal/storage/sqlite.go:554-602 | Counts the failure and postpones the row, also when the update lands and an error is returned; an absent row is an error |
| SQLite.SQLiteStorage.GetPendingEvents | agent/internal/storage/sqlite.go:447-500 | The row scan decodes the oldest due rows and dead-letters the undecodable ones afterwards, stopping at the first failed move |
| QuotaProperties.SweepPrunes | agent/internal/storage/sqlite.go:329-382 | For every size oracle the sweep keeps rows unchanged, deletes only DEBUG, INFO and WARNING rows, lowest class first and oldest first within a class, and declares exhaustion only when no prunable row is left, some reading was over the quota and the event is not CRITICAL or FATAL |
| QuotaProperties.SweepAccounts | agent/internal/storage/sqlite.go:336-368 | Every deleted row is counted, in total and under its class, except those of a batch whose counter update failed |
| QuotaProperties.QuotaSpec | agent/internal/storage/sqlite.go:319-389 | The same for the whole check; below the quota nothing happens |
| QuotaProperties.RoundExactly | agent/internal/storage/sqlite.go:331-367 | One reading: below nine tenths of the quota pruning stops with nothing done, and only there; otherwise the oldest rows of the class go, fifty if there are as many, and are counted under it |
| QuotaProperties.SweepStops | agent/internal/storage/sqlite.go:331-335 | No batch is deleted at or after the first reading below nine tenths of the quota: at most fifty rows go for each reading before it |
| QuotaProperties.SweepGoesOn | agent/internal/storage/sqlite.go:331-371 | Pruning stops no earlier: with prunable rows left it lets the event in only at the first such reading and refuses only for a fault; without either, all prunable rows go |
| QuotaProperties.SettleExactly | agent/internal/storage/sqlite.go:372-388 | The answer, the column and the refusals once no class is left |
| QuotaProperties.QuotaStops | agent/internal/storage/sqlite.go:319-389 | Both bounds for the whole check; a first size that cannot be read refuses the event |
| StorageProperties.InsertSpec | agent/internal/storage/sqlite.go:267-316 | The insert writes exactly the fresh row and advances the counter, or changes nothing; exactly when it succeeds, fails and is uncertain; the uniqueness constraints never fire |
| StorageProperties.StoreSpec | agent/internal/storage/sqlite.go:215-317 | Every outcome of Store keeps the invariant (disjoint ids, distinct numbers below the counter, payload of id and number), success means the text is held, and nothing but pruning and the one insertion changes |
| StorageProperties.RestoreIsNoop | agent/internal/storage/sqlite.go:227-254 | Re-storing a present id changes nothing, prunes nothing, and succeeds exactly when the lookups work and the text matches |
| StorageProperties.RestoreAnswers | agent/internal/storage/sqlite.go:227-254 | The answer for a present id names the first of: no id, a failing lookup, another text |
| StorageProperties.StoreAnswers | agent/internal/storage/sqlite.go:215-317 | The answer for a new id names the first obstacle in the order of the steps, without one the commit decides; the row is there exactly if no obstacle was met and the commit took effect; with room for its JSON and 1024 bytes nothing is pruned |
| StorageProperties.MoveRawSpec | agent/internal/storage/sqlite.go:502-537 | Success exactly when the id is in the dead-letter queue alone under that text by a reported commit; a conflicting dead row blocks the move |
| StorageProperties.MoveRawDecides | agent/internal/storage/sqlite.go:502-537 | The two tables after the move: both changes or none, an unreported commit included |
| StorageProperties.MoveToDLQSpec | agent/internal/storage/sqlite.go:706-715 | The same for an event, with its text |
| StorageProperties.RemoveSpec | agent/internal/storage/sqlite.go:539-547 | Removal deletes the row of the id exactly if the statement takes effect, reports success exactly if it was reported, and touches nothing else |
| StorageProperties.MarkFailedSpec | agent/internal/storage/sqlite.go:554-602 | No row is lost, moved or rewritten; exactly when the row changes, it waits at least a second and at most a day |
| StorageProperties.DelayBounds | agent/internal/storage/sqlite.go:562-592 | The wait is 10 to 3609 seconds, or 1 to 86400 and no longer than asked when the server names it |
| StorageProperties.DelayExactly | agent/internal/storage/sqlite.go:549-592 | 10 seconds doubling to 2560, then an hour from the tenth failure on, plus jitter; a wait named by the server is cut to a day |
| StorageProperties.FetchSpec | agent/internal/storage/sqlite.go:447-500 | A fetch hands out the oldest due rows in ascending order, each decoded from its own row; undecodable ones move to the dead-letter queue and no id leaves both tables |
| StorageProperties.FetchAnswers | agent/internal/storage/sqlite.go:447-500 | A fetch answers exactly if its query and all its moves work; what it moves was due and undecodable and keeps its number and text |
| StorageProperties.FetchTakesDue | agent/internal/storage/sqlite.go:454-459 | Nothing is handed out that is not due, and within the limit every due row is handed out or, undecodable, dead-lettered |
| StorageProperties.HeldBackForTheWait | agent/internal/storage/sqlite.go:454-459 | No fetch hands out a failed event before its wait is over, and from then on every fetch with room does |
| StorageRuns.RunKeepsInv | agent/internal/storage/sqlite.go:215-317 | Every run of operations keeps the invariant, failed and uncertain ones included |
| StorageRuns.EventsAreConserved | agent/internal/storage/sqlite.go:336-368 | Over every run, rows inserted = rows alive + removed + dead-lettered + counted as dropped + rows of uncounted batches; the drop total is the sum of its parts; no uncounted rows if no counter update fails |
| StorageRuns.NumbersGivenExactly | agent/internal/storage/sqlite.go:279-304 | From any state, some later run gives a row the number n exactly if n is not below the counter |
| StorageRuns.DeadLetterNumberGivenExactly | agent/internal/storage/sqlite.go:502-537 | The number of a dead letter can be given to a later event exactly if it was not below the counter when the event was moved |
| IngestionEngine.Engine.ProcessEvent | agent/internal/ingestion/engine.go:94-214 | The imperative loop computes the specified run, and ends without a bound when the contexts differ |
| IngestionEngine.Engine.RecoverUncertain | agent/internal/ingestion/engine.go:140-181 | Dead-letter queue, then spill file, then dropped |
| IngestionEngine.Engine.AppendEmergencySpill | agent/internal/ingestion/engine.go:223-243 | The file only grows; success exactly when the whole record was written and synced |
| Ingestion.EndsExactlyWhenContextsDiffer | agent/internal/ingestion/engine.go:94-214 | ProcessEvent ends for every store exactly when its contexts differ or the event has no id, and with different contexts calls Store at most four times |
| Ingestion.EndsInBudget | agent/internal/ingestion/engine.go:104-204 | From any point of the loop the calls left are bounded by the uncertain attempts left plus one context switch |
| Ingestion.TurnSpends | agent/internal/ingestion/engine.go:104-204 | A turn of the loop calls Store once, spends an uncertain attempt or the context switch, and never switches back |
| Ingestion.ProcessEventHolds | agent/internal/ingestion/engine.go:94-214 | COMMITTED and RECOVERED_DLQ mean the event is held, the latter in the dead-letter queue alone; at most one number is used; no earlier spill record and no CRITICAL or FATAL row of another event is lost; FAILED_BEFORE_COMMIT without an uncertain attempt means presence did not change |
| IngestionProperties.OutcomeExactly | agent/internal/ingestion/engine.go:94-214 | Every outcome with its exact condition on the last answer of Store: COMMITTED exactly if it was success, FAILED_BEFORE_COMMIT exactly if it was a failure other than an interruption, and so on; DROPPED only after an uncertain attempt, with the drain context at its end or, after the third, with both recoveries failed |
| IngestionProperties.GoesOnExactly | agent/internal/ingestion/engine.go:104-204 | Exactly when the loop goes on, with what, and on which context |
| IngestionProperties.UnhinderedIsCommitted | agent/internal/ingestion/engine.go:94-117 | A new event that meets no obstacle is committed by the first Store, with its row and number |
| IngestionProperties.EnrichFills | agent/internal/ingestion/engine.go:81-91 | Exactly the empty ones of tenant, site and asset are filled from the configuration, and doing it twice is doing it once |
| Ingestion.RetryRecognisesItsRow | agent/internal/ingestion/engine.go:137-203 | A retry after a commit that landed unreported succeeds unless the lookup fails |
| Ingestion.FailureAfterUncertainIsOpen | agent/internal/ingestion/engine.go:119-135 | For every new event there are two runs, the same in all the engine sees, that end in FAILED_BEFORE_COMMIT with and without the row |
| Ingestion.DeadLetterNumberIsReused | agent/internal/storage/sqlite.go:279-304 | After rolled-back commits an event is dead-lettered under a number the next stored event is given again |
| GovernorObjects.NewGovernor | agent/internal/governor/governor.go:32-45 | A governor exactly for accepted configurations, starting in NORMAL without a timer |
| GovernorObjects.HostGovernor.Evaluate | agent/internal/governor/governor.go:97-144 | The imperative evaluation reaches the specified state and timer and reports a transition exactly on a change |
| GovernorObjects.HostGovernor.Move | agent/internal/governor/governor.go:130-144 | A transition sets the state, clears the timer and reports both states |
| GovernorObjects.ComputeTargetState | agent/internal/governor/governor.go:159-195 | The loop over the four dimensions returns the worst verdict, EMERGENCY for invalid signals |
| GovernorProperties.TargetIsFixpoint | agent/internal/governor/governor.go:159-235 | For accepted configurations without NaN margins on dimensions that can fire: the verdict is a fixpoint and monotone in the current state |
| GovernorProperties.VerdictExactly | agent/internal/governor/governor.go:146-235 | EMERGENCY exactly for an implausible signal or one of the four dimensions at or over its emergency threshold, lowered by the margin in EMERGENCY; NORMAL exactly below both thresholds in all four, the saver threshold lowered outside NORMAL; memory thresholds not above their margin are never lowered |
| GovernorProperties.ReachesInNumbers | agent/internal/governor/governor.go:197-215 | With finite thresholds the comparison is that of the numbers |
| GovernorProperties.AcceptedInNumbers | agent/internal/governor/governor.go:47-89 | Which finite configurations are accepted |
| GovernorProperties.EvaluateExactly | agent/internal/governor/governor.go:97-144 | When the state changes, to what, and what the timer says afterwards |
| GovernorProperties.TargetIsMonotone | agent/internal/governor/governor.go:159-235 | More pressure than a valid reading never gives a better verdict, in each of the four signals and for every configuration |
| GovernorProperties.FixpointExactlyIfStable | agent/internal/governor/governor.go:47-89 | For every accepted configuration, all verdicts are fixpoints exactly if a check on the thresholds holds |
| GovernorProperties.MonotoneExactlyIfStable | agent/internal/governor/governor.go:47-89 | The same check decides exactly whether a worse state never gets a better verdict |
| GovernorProperties.NaNMarginIsAccepted | agent/internal/governor/governor.go:47-89 | A CPU margin of NaN between ordinary dimensions is accepted and fails that check |
| GovernorProperties.UnstableFlapsForever | agent/internal/governor/governor.go:97-116 | Any other accepted configuration changes state in two of every three readings under constant signals |
| GovernorProperties.DownsAreSpaced | agent/internal/governor/governor.go:104-116 | Each step down consumes a full recovery duration of the clock |
| GovernorProperties.UpsAreAmortised | agent/internal/governor/governor.go:101-103 | Steps up are bounded by severity gained and twice the steps down |
| GovernorProperties.TransitionsAreBounded | agent/internal/governor/governor.go:97-144 | Over any run with a clock that never goes back: at most 2 + 3 * floor(elapsed / RecoveryDuration) transitions |
| GovernorProperties.TimerHasHistory | agent/internal/governor/governor.go:104-116 | A pending recovery timer was started by an earlier evaluation since which every target was below, and never runs in NORMAL |
| GovernorProperties.StepDownHasDwelt | agent/internal/governor/governor.go:104-116 | Every step down follows a suffix of evaluations, at least RecoveryDuration long, with all targets below; it goes to the last target |
| GovernorProperties.ConstantSignalsSettle | agent/internal/governor/governor.go:97-116 | For stable configurations constant signals cause at most one transition, to the verdict |
| GovernorObjects.GovernorMetrics.RecordTransition | agent/internal/governor/metrics.go:160-175 | The state, count, timestamp and emergency start after a transition |
| GovernorObjects.GovernorMetrics.UpdateCPU | agent/internal/governor/metrics.go:102-112 | Accepts exactly absent values and numbers from 0 to 100, and otherwise changes nothing |
| GovernorObjects.GovernorMetrics.UpdateMemory | agent/internal/governor/metrics.go:114-118 | Stores the measurement and nothing else |
| GovernorObjects.GovernorMetrics.UpdateQueue | agent/internal/governor/metrics.go:120-144 | Takes depth, capacity, age and the derived saturation together or not at all |
| GovernorObjects.GovernorMetrics.UpdateDisk | agent/internal/governor/metrics.go:149-158 | Takes usage and write rate together or not at all |
| GovernorObjects.GovernorMetrics.SnapshotTimeInEmergency | agent/internal/governor/metrics.go:219-223 | The time since the emergency began, zero outside one |
| GovernorObjects.Coordinator.Step | agent/internal/governor/coordinator.go:122-302 | The imperative step stages readings, feeds gauges, evaluates only when ready and unblocked, and reports all errors, as specified |
| GovernorObjects.Coordinator.Sense | agent/internal/governor/coordinator.go:135-237 | Signals, readiness and errors from the sensors; the CPU baseline is set by the first error-free sample |
| GovernorObjects.Coordinator.FeedMetrics | agent/internal/governor/coordinator.go:239-251 | The gauges after feeding, and which of them refused |
| Coordination.StepAgrees | agent/internal/governor/coordinator.go:122-302 | State changes only in steps reported Ready and Evaluated, and the metrics record exactly the transitions taken |
| Coordination.StepEvaluatesExactly | agent/internal/governor/coordinator.go:122-302 | A step evaluates exactly if it is not cancelled, the memory was measured, the CPU sampler is primed or gives a value, and there is a budget; then it is one evaluation with its signals, and otherwise governor and metrics are left alone |
| Coordination.SensorErrorsExactly | agent/internal/governor/coordinator.go:131-237 | Each sensor error with its condition |
| Coordination.SignalsExactly | agent/internal/governor/coordinator.go:84-118 | The signals are the measured values, the used share of the budget, at most 1, and the filled share of the queue |
| Coordination.MetricsFollowGovernor | agent/internal/governor/metrics.go:160-175 | Over every run the metrics state is the governor's, the count is the transitions taken, the emergency start is the last transition exactly in EMERGENCY, and with budget 0 the governor stays NORMAL |
| Coordination.DerivedSignalsAreRatios | agent/internal/governor/coordinator.go:84-112 | Derived signals are ratios or unavailable, exactly when they are unavailable, and an unavailable one means EMERGENCY |
| Coordination.GaugesStaySane | agent/internal/governor/metrics.go:102-158 | Over every run the gauges lie in their ranges and the saturation is depth over capacity, at most 1 |
| Coordination.GaugesShowTheSignals | agent/internal/governor/coordinator.go:239-266 | For CPU, memory, disk and queue: gauge and signal agree unless the gauge refused; exactly when each refuses, what it then keeps, and what the governor is given instead |
| Coordination.GaugesCanGoStale | agent/internal/governor/coordinator.go:239-266 | One input for each of the three refusals, with a signal its gauge does not show |
| Gauging.UpdatesKeepSane | agent/internal/governor/metrics.go:102-158 | Each update keeps the gauges in their ranges, whatever is passed |
| ProcessModel.KeysEqualExactly | agent/internal/collectors/process/model.go:26-28 | Keys are equal exactly if the PIDs are and the start times lie a multiple of 2^64 nanoseconds apart |
| ProcessModel.IdentityKeyInjective | agent/internal/collectors/process/model.go:26-28 | For start times UnixNano can tell, keys are equal exactly if PID and start time are, negative values included |
| ProcessStat.StatRoundTrip | agent/internal/collectors/process/adapter_linux.go:183-239 | For every name, parentheses and spaces included, and words without a closing parenthesis, the line gives back name, parent and start time |
| ProcessStat.NameIsExact | agent/internal/collectors/process/adapter_linux.go:184-192 | A parsed line has the printed name exactly if no closing parenthesis follows it |
| ProcessStat.FieldsOfJoined | agent/internal/collectors/process/adapter_linux.go:199-209 | Splitting space-separated words gives them back |
| ProcessStat.StartIncreasesExactly | agent/internal/collectors/process/adapter_linux.go:221-226 | For clock rates up to 10^9 later ticks give a strictly later start exactly unless the seconds leave the 64-bit range in between |
| ProcessStat.StartInNanoseconds | agent/internal/collectors/process/adapter_linux.go:217-221 | In the usual range the start is the boot time plus the ticks in nanoseconds, rounded down |
| ProcessStat.StartsDiffer | agent/internal/collectors/process/adapter_linux.go:221-226 | Different ticks give different start times even where the seconds wrap |
| ProcessStat.TicksAreToldApart | agent/internal/collectors/process/adapter_linux.go:221-226 | All tick counts are told apart exactly for clock rates up to 10^9 |
| ProcessStat.ReusedPidSharesKeyExactly | agent/internal/collectors/process/adapter_linux.go:221-230 | Two processes with one PID and different start ticks have different start times, and share a key exactly if those lie a multiple of 2^64 nanoseconds apart, so never within 584 years |
| ProcessStat.ReusedPidChangesKey | agent/internal/collectors/process/adapter_linux.go:221-230 | For start times UnixNano can tell they never share a key |
| ProcessStat.ReusedPidCanShareKey | agent/internal/collectors/process/adapter_linux.go:221-230 | At one tick a second, start ticks 0 and 2^55 of one PID share a key |
| ProcessCapture.CaptureSnapshot | agent/internal/collectors/process/adapter_linux.go:92-123 | The directory loop lists every numeric directory once, with its PID alone when its stat line cannot be read or parsed |
| ProcessCapture.CapturedExactly | agent/internal/collectors/process/adapter_linux.go:92-123 | Exactly the numeric directories are listed |
| ProcessCapture.CapturedAsItsLine | agent/internal/collectors/process/adapter_linux.go:125-238 | A process is listed under its directory with the name on its stat line, whatever characters it has, and the start its ticks say |
| ProcessCapture.UnreadableIsUnidentified | agent/internal/collectors/process/adapter_linux.go:110-115 | One whose stat cannot be read or is refused is listed with its PID alone |
| ProcessCapture.CaptureIsPidUnique | agent/internal/collectors/process/adapter_linux.go:92-123 | A capture lists each PID at most once |
| ProcessCapture.PollingKeepsOnePerPid | agent/internal/collectors/process/adapter_linux.go:59-71 | Polling keeps at most one live instance per PID |
| Lifecycle.ListingUnique | agent/internal/collectors/process/lifecycle.go:90-101 | There is one listing of a set of identities in strictly ascending (PID, start) order |
| Lifecycle.ScanSpec | agent/internal/collectors/process/lifecycle.go:53-70 | Scanning a snapshot adds exactly its observed identities and keeps known instances |
| LifecycleProperties.ReconcileIsExact | agent/internal/collectors/process/lifecycle.go:45-109 | The new keys are the observed ones and the old ones whose PID was unobservable; the emits are the exits, then the starts, each strictly ascending and complete |
| LifecycleProperties.BaselineIsExact | agent/internal/collectors/process/lifecycle.go:45-86 | The first snapshot adds what it observes, removes nothing and emits nothing |
| LifecycleProperties.HandleEventIsExact | agent/internal/collectors/process/lifecycle.go:122-154 | A start makes its own identity known and an exit makes it unknown, with the instance emitted, and both leave every other alone |
| LifecycleProperties.ExitUndoesStart | agent/internal/collectors/process/lifecycle.go:122-154 | An exit undoes the start of its identity, and the two emits name one instance |
| LifecycleProperties.SnapshotOrderIsIrrelevant | agent/internal/collectors/process/lifecycle.go:53-108 | Snapshots showing the same identities lead to the same keys, and to the same emitted identity sequence when instances under one new key have one start time |
| LifecycleProperties.PermutationsAgreeExactly | agent/internal/collectors/process/lifecycle.go:53-108 | Permuting a snapshot never changes the keys, and changes nothing that is emitted exactly if instances under one new key have one start time |
| LifecycleProperties.InRangeIsUnambiguous | agent/internal/collectors/process/lifecycle.go:53-70 | Start times UnixNano can tell always meet that condition |
| LifecycleProperties.PermutedSnapshotsAgree | agent/internal/collectors/process/lifecycle.go:53-108 | Permuting a snapshot of such start times changes nothing |
| LifecycleProperties.ApplyLogs | agent/internal/collectors/process/lifecycle.go:45-154 | One call logs an exit for an identity exactly if it stops being known, and a start exactly if it becomes known after the baseline |
| LifecycleProperties.LedgerBalances | agent/internal/collectors/process/lifecycle.go:45-154 | In every run, starts emitted + silent additions - exits emitted is 1 if the identity is known and 0 otherwise |
| LifecycleProperties.ActionsAlternate | agent/internal/collectors/process/lifecycle.go:45-154 | After the baseline each identity's actions strictly alternate |
| LifecycleProperties.ReconcileKeepsOnePerPid | agent/internal/collectors/process/lifecycle.go:45-109 | A snapshot listing each PID once keeps at most one live instance per PID |
| LifecycleProperties.OneLiveInstancePerPid | agent/internal/collectors/process/lifecycle.go:45-109 | The same for every run of reconciliations |
| LifecycleConcurrency.DecisionsAreSequential | agent/internal/collectors/process/lifecycle.go:87-108 | However deliveries interleave, decisions are those of the calls in lock order, and delivered plus pending emits are theirs |
| LifecycleConcurrency.ChannelBalances | agent/internal/collectors/process/lifecycle.go:87-108 | Once all emits are delivered, in any order, the channel balances as the ledger does |
| LifecycleConcurrency.ChannelAlternatesExactly | agent/internal/collectors/process/lifecycle.go:87-108 | However emits interleave, once all are delivered an identity's actions alternate on the channel exactly if they arrive in the order decided |
| LifecycleConcurrency.BaselinedChannelAlternatesExactly | agent/internal/collectors/process/lifecycle.go:45-154 | With the baseline first, the same for alternation from what the baseline knew to what is known now |
| LifecycleConcurrency.InOrderChannelIsTheLog | agent/internal/collectors/process/lifecycle.go:87-108 | Delivered oldest first, the channel is the log of the decisions, so every ordering result carries over |
| LifecycleConcurrency.ChannelOrderCanInvert | agent/internal/collectors/process/lifecycle.go:149-153 | A run in which an exit is delivered before its start |
| LifecycleObjects.LifecycleEngine.Reconcile | agent/internal/collectors/process/lifecycle.go:45-109 | The imperative reconciliation, walking the map in any order, reaches the specified state and emits the specified list, less what a cancelled context drops |
| LifecycleObjects.LifecycleEngine.ScanSnapshot | agent/internal/collectors/process/lifecycle.go:53-70 | The scan loop collects the observed keys, the unobservable PIDs and the new instances, each once |
| LifecycleObjects.LifecycleEngine.RemoveGone | agent/internal/collectors/process/lifecycle.go:73-82 | The removal loop removes and collects exactly the instances gone, in whatever order it walks |
| LifecycleObjects.LifecycleEngine.EmitAll | agent/internal/collectors/process/lifecycle.go:103-108 | The emits go out in order |
| LifecycleObjects.LifecycleEngine.HandleEvent | agent/internal/collectors/process/lifecycle.go:122-154 | The imperative event handling, an exit carrying the instance that was known |
| LifecycleObjects.SortedCollection | agent/internal/collectors/process/lifecycle.go:90-101 | Sorting what the loops collected gives the one ascending listing |
| LifecycleObjects.NothingDropped | agent/internal/collectors/process/lifecycle.go:156-200 | Without cancellation every emit reaches the channel |
| NormalizerProperties.FrameRoundTrip | agent/internal/collectors/passivenetwork/normalizer.go:18-226 | Decoding an encoded Ethernet, 802.1Q or raw IP frame with ARP, IPv4 and TCP, UDP or ICMP returns exactly its addresses, ports, tag and payload, whatever its options and ignored bytes |
| NormalizerProperties.KnownIsAFrame | agent/internal/collectors/passivenetwork/normalizer.go:18-226 | Whatever is Known is an encoded frame and shows that frame |
| NormalizerProperties.KnownExactlyFrames | agent/internal/collectors/passivenetwork/normalizer.go:18-226 | On arbitrary bytes: Known exactly if the bytes are an encoded frame |
| NormalizerProperties.NormalizeIsClean | agent/internal/collectors/passivenetwork/normalizer.go:18-226 | On arbitrary bytes: Known exactly without a flag; otherwise Unsupported, one flag and no payload; the payload is a suffix of the input of the reported length |
| NormalizerProperties.RefusalExactly | agent/internal/collectors/passivenetwork/normalizer.go:18-226 | On arbitrary bytes, each of the three refusals with its exact condition on the header bytes |
| NormalizerProperties.LabelsExactly | agent/internal/collectors/passivenetwork/normalizer.go:18-170 | Time and interface are kept, and an undecoded packet type or transport is named by its number |
| NormalizerProperties.HexReadsBack | agent/internal/collectors/passivenetwork/normalizer.go:71-80 | The four hexadecimal digits of a packet type read back as the type |
| NormalizerProperties.OperationNameTells | agent/internal/collectors/passivenetwork/normalizer.go:110-120 | The name of an ARP operation determines it |
| NormalizerProperties.TruncatedCapture | agent/internal/collectors/passivenetwork/normalizer.go:129-194 | A frame cut short is Known exactly if all its headers are there; the rest only shortens the payload, whatever length the headers declare |
| Modbus.EvidenceExactlyAdus | agent/internal/collectors/passivenetwork/modbus.go:81-158 | Known, evidence, and a data unit of at least 8 bytes with protocol 0 and length at least 2 are the same thing; anything else is Inferred with one flag |
| Modbus.AduRoundTrip | agent/internal/collectors/passivenetwork/modbus.go:114-198 | An encoded data unit gives back its header, exception code, address and quantity where its function and direction carry them, and a flag exactly for what is missing |
| Modbus.RequestRoundTrip | agent/internal/collectors/passivenetwork/modbus.go:164-194 | An encoded request gives back its address and quantity |
| Modbus.BuiltPayloadRoundTrip | agent/internal/collectors/passivenetwork/fixtures_test.go:117-127 | A fixture payload is understood exactly if its protocol is 0 and its length did not wrap below 2, and then gives back its header |
| Modbus.TruncatedAdu | agent/internal/collectors/passivenetwork/modbus.go:84-112 | A data unit cut short is evidence exactly with its function code, and then of the same unit with less data |
| Modbus.RefusalExactly | agent/internal/collectors/passivenetwork/modbus.go:84-112 | Why a payload is refused, exactly |
| Modbus.DirectionExactly | agent/internal/collectors/passivenetwork/modbus.go:123-131 | The direction from the two ports, exactly |
| Modbus.NamesOfSupported | agent/internal/collectors/passivenetwork/modbus.go:51-72 | Which functions are supported, and their names |
| Modbus.FunctionNameIdentifiesCode | agent/internal/collectors/passivenetwork/modbus.go:51-72 | The reported name determines the function code and the exception bit |
| PassiveNetwork.ProcessKeepsEvidence | agent/internal/collectors/passivenetwork/protocols.go:29-95 | Identification changes no address, port, tag or earlier metadata and drops no flag |
| PassiveNetwork.ModbusEndToEnd | agent/internal/collectors/passivenetwork/protocols.go:34-68 | A data unit inside a captured TCP frame on port 502 is reported as known Modbus between the right addresses with its own header |
| PassiveNetwork.KnownModbusExactlyAdus | agent/internal/collectors/passivenetwork/protocols.go:34-68 | Known Modbus is reported exactly for such captures: neither the port nor a damaged frame is enough |
| PassiveNetwork.FinalConfidence | agent/internal/collectors/passivenetwork/collector.go:149-158 | The final confidence in every case |
| PassiveNetwork.HintExactly | agent/internal/collectors/passivenetwork/protocols.go:29-95 | The protocol reported for every transport and pair of ports; only Modbus adds flags or metadata, and which flags |
| PassiveNetwork.EvidenceInMetadata | agent/internal/collectors/passivenetwork/protocols.go:45-55 | Every field of the evidence lies under its own key |
| PassiveNetwork.OptionalEvidenceExactly | agent/internal/collectors/passivenetwork/protocols.go:57-66 | The optional fields are there exactly if the evidence has them |
| PassiveNetwork.RefusedFrames | agent/internal/collectors/passivenetwork/collector.go:149-158 | A refused frame stays Unsupported exactly without hinting TCP ports, stays flagged, and is otherwise Inferred |
| PassiveNetwork.RefusedYetInferredExactly | agent/internal/collectors/passivenetwork/normalizer.go:129-188 | On arbitrary bytes: refused by the normalizer and still Inferred exactly for an accepted IPv4 header with protocol 6, a TCP header with a bad data offset, and a hinting port |
| PassiveNetwork.DamagedCaptureIsInferred | agent/internal/collectors/passivenetwork/normalizer.go:179-188 | Such a capture of 40 bytes |
| PassiveNetworkObjects.NormalizeRawObservation | agent/internal/collectors/passivenetwork/normalizer.go:18-81 | The imperative decoder fills the observation and returns the payload as specified |
| PassiveNetworkObjects.DecodeARPAt | agent/internal/collectors/passivenetwork/normalizer.go:83-127 | The ARP decoder, at an offset into the frame |
| PassiveNetworkObjects.DecodeIPv4At | agent/internal/collectors/passivenetwork/normalizer.go:129-170 | The IPv4 decoder, at an offset into the frame |
| PassiveNetworkObjects.DecodeTCP | agent/internal/collectors/passivenetwork/normalizer.go:172-194 | The TCP decoder, ports kept on a bad data offset |
| PassiveNetworkObjects.DecodeUDP | agent/internal/collectors/passivenetwork/normalizer.go:196-211 | The UDP decoder |
| PassiveNetworkObjects.DecodeICMP | agent/internal/collectors/passivenetwork/normalizer.go:213-226 | The ICMP decoder |
| PassiveNetworkObjects.DecodeModbus | agent/internal/collectors/passivenetwork/modbus.go:81-131 | The imperative Modbus decoder fills the evidence record as specified |
| PassiveNetworkObjects.DescribeFunction | agent/internal/collectors/passivenetwork/modbus.go:133-159 | Exception, name and unsupported functions |
| PassiveNetworkObjects.ParsePdu | agent/internal/collectors/passivenetwork/modbus.go:161-195 | The bounded fields of the supported functions |
| PassiveNetworkObjects.IdentifyProtocol | agent/internal/collectors/passivenetwork/protocols.go:29-95 | The imperative identifier appends the flags one by one, records the evidence and returns the hint as specified |
| PassiveNetworkObjects.ProcessRaw | agent/internal/collectors/passivenetwork/collector.go:149-158 | Normalizing, identifying and overriding the confidence |
| PassiveNetworkObjects.BuildEthernetHeader | agent/internal/collectors/passivenetwork/fixtures_test.go:10-16 | The buffer is the encoded link header |
| PassiveNetworkObjects.BuildVLANHeader | agent/internal/collectors/passivenetwork/fixtures_test.go:18-26 | The buffer is the encoded tagged header with the identifier modulo 4096 |
| PassiveNetworkObjects.BuildIPv4Header | agent/internal/collectors/passivenetwork/fixtures_test.go:28-42 | The header bytes, total length modulo 2^16 |
| PassiveNetworkObjects.BuildTCPHeader | agent/internal/collectors/passivenetwork/fixtures_test.go:44-57 | The buffer is the encoded segment |
| PassiveNetworkObjects.BuildUDPHeader | agent/internal/collectors/passivenetwork/fixtures_test.go:59-67 | The buffer is the encoded datagram, length modulo 2^16 |
| PassiveNetworkObjects.BuildARP | agent/internal/collectors/passivenetwork/fixtures_test.go:69-84 | The result is the encoded ARP frame |
| PassiveNetworkObjects.BuildEthernetIPv4TCP | agent/internal/collectors/passivenetwork/fixtures_test.go:86-94 | The result is the encoded frame, so the round trip applies |
| PassiveNetworkObjects.BuildEthernetIPv4UDP | agent/internal/collectors/passivenetwork/fixtures_test.go:96-104 | The result is the encoded frame |
| PassiveNetworkObjects.BuildEthernetVLANIPv4TCP | agent/internal/collectors/passivenetwork/fixtures_test.go:106-114 | The result is the encoded tagged frame |
| PassiveNetworkObjects.BuildModbusTCPPayload | agent/internal/collectors/passivenetwork/fixtures_test.go:117-127 | The buffer is the payload of the round trip above |
| PassiveNetworkObjects.VlanFixtureRoundTrip | agent/internal/collectors/passivenetwork/fixtures_test.go:106-114 | Decoding the tagged fixture returns every field given, identifiers below 4096 included |
| Detection.DetectionEngine.Evaluate | agent/internal/detection/engine.go:40-58 | The loop over the rules leaves the store as specified; findings are not evaluated |
| Detection.DetectionEngine.EvaluateRuleSafe | agent/internal/detection/engine.go:60-91 | A rule that fails, panics, does not match or whose finding is invalid leaves the store alone |
| Detection.FindingTells | agent/internal/detection/engine.go:94-125 | What a finding takes from the event, what from the rule, and what it leaves empty |
| Detection.FiresExactly | agent/internal/detection/engine.go:68-91 | Over a valid event a matching rule fires exactly if its own severity, confidence, id and version fit |
| Detection.FiringRuleLeavesRow | agent/internal/detection/engine.go:60-91 | A firing rule leaves its finding as one new row with the next number and the rule's severity, and nothing else |
| Detection.OnlyTelemetryIsEvaluated | agent/internal/detection/engine.go:50-58 | Exactly the events that are no findings are evaluated, so findings never breed findings |
| Detection.EvaluationAddsFindings | agent/internal/detection/engine.go:40-91 | Without failures or quota pressure, exactly the findings not yet known are added, each row holding a finding, and no other row changes; an event whose date JSON cannot name, which no store holds, adds nothing |
| Detection.PresentFindingsAreFinal | agent/internal/detection/engine.go:40-91 | With all findings present, evaluating again changes nothing, whatever fails and however full the disk is |
| Detection.EvaluatingTwiceIsOnce | agent/internal/detection/engine.go:40-91 | Evaluating an event that can be stored twice leaves the tables as once |
| Detection.OneFindingPerRule | agent/internal/detection/engine.go:94-125 | Rules differing in id or version, without colons, make one finding each |
| Detection.DedupNameInjective | agent/internal/detection/engine.go:98-100 | The identity text tells its parts apart when the first three contain no colon |
| Detection.SameFindingExactly | agent/internal/detection/engine.go:94-125 | Two rules share a finding exactly if id and version read the same with a colon between them |
| Detection.FindingIsOwnExactly | agent/internal/detection/engine.go:94-125 | A rule shares its findings with no other rule exactly if its id and version contain no colon |
| Detection.OneFindingPerRuleExactly | agent/internal/detection/engine.go:94-125 | Each firing rule of a list makes a finding of its own exactly if their names differ |
| Detection.ColonsCollide | agent/internal/detection/engine.go:94-125 | Two different rules with one finding |

## Left out

- The agent's identity file and device id, schema and timestamp migration, WAL maintenance, corruption quarantine and the uninitialised database.
- The `state` column, which is always PENDING, and the 64-bit wrap of attempt counts and sequence numbers.
- The rounding of the low-water mark, taken as nine tenths of the quota truncated toward zero.
- Event ids are identified up to the spelling of the UUID, as Postgres does. The agent's tables compare ids as text; the model assumes that nobody spells one id in two ways.
- JSON text, UUID spelling and SHA-1 hashing: serialization is an injective constructor, a derived id is taken as collision-free.
- Store sets the event's number in place; the model returns the numbered event instead, so aliasing of the event is not captured.
- SQL statements and transactions are atomic; Valkey and Postgres are one object each.
- ServerObjects.Consumer.RecoverPending: idle times, retry counts and the fairness of claims are oracles; liveness of the worker is not claimed, since only the first hundred pending messages are inspected.
- Backoff jitter is one clock reading per call.
- Callbacks, log lines, test hooks and the unknown-error branch of the retry loop, which Store never takes.
- IngestionEngine.Engine.ProcessEvent: the process exit after a failed spill is the outcome DROPPED.
- The forwarder's start and stop, its wake-up channel and its polling interval.
- Governor readings are exact reals, infinities and NaN; rounding is not modelled, and the reason texts of verdicts are left out.
- The counters of aggregated and dropped events in the metrics and the copying part of the snapshot; absent metrics or governor objects.
- Executable path, command line, user name and the rest of a process's optional metadata; the Windows and netlink adapters.
- LifecycleObjects.LifecycleEngine.Reconcile: the library sort is modelled by insertion.
- Events.ValidEventsRoundTrip: the read-back holds by construction, since JSON text is abstract.
- Text forms of MAC and IP addresses, which are kept as bytes; the fixtures are given six-byte and four-byte addresses.
- PassiveNetworkObjects.ProcessRaw: the canonical event built from the observation is not modelled.
- Bit masks and shifts on bytes are written as division and remainder.
- Detection.EvaluationAddsFindings: the list of ATT&CK tags is left out of the finding, its metadata is an opaque text.
- Inventory, filesystem, USB and network-table collectors, YARA, dashboard, configuration loading and the read endpoints.

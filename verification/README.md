# Executor: event delivery, codecs, migrations and read models in Dafny

The Executor runs notebooks for Agents. What happens to an Execution is recorded as numbered events in
PostgreSQL, published through an outbox to a Redis Stream, and applied by Agents to their own store. This
project models that path and the other parts of the repository whose correctness depends on more than one
function, and proves what they promise.

**Event delivery** (`Events`, `Protocol`, `Invariant`, `Preservation`, `AgentPreservation`, `Delivery`,
`Guarantees`, `Delays`, `Collisions`, `NoCopies`, `Batches`, `Recovery`, `CatchUp`, `Runs`). One step system holds the transactions that number and store events,
any number of outbox publishers with their row locks and uncommitted marks, the Stream with retention and a
consumer group, and any number of Agent consumers on one store. Every process may stop between any two steps;
an XADD that timed out may arrive later, also more than once; the SELECT and the INSERT of `_apply_once` are two
steps, because the Python SQLite driver opens its transaction only at the INSERT, so consumers can race between
them. The results are about every state some sequence of steps reaches: first deliveries in order, exactly-once
application, no acknowledged event lost, a refinement of ordered exactly-once delivery, and catching up: calls of
`publish_batch` with any batch size publish everything that is due, turns of the Agent's loop, which claim and read
20 messages at a time, acknowledge the whole Stream, and from every reachable state such calls and turns apply the
whole history. Finding: an INSERT can meet the primary key, in a run that is given, and it does exactly when the
SELECT before it is out of date; nothing is lost by it.

**The loops of that path** (`Publication`, `AgentConsumer`, `Starvation`, `Evidence`, `Trimming`). The publishing loop updates its rows in
place, the Agent's loop is an object over its group and store, and the evidence checker fills its dict message by
message. Each is proved against a specification, and each specification is tied to the step system. Two findings.
Reclaiming looks at the 20 oldest pending messages only, so 20 messages that do not parse, or that are behind a gap
nothing fills, stop it for good: over any later passes, reads and arrivals everything that is pending stays pending.
A consumer that stops at the wrong moment is enough to get there, also with valid messages, when the group was
created with `$` behind the first event of an Execution (when a single pass acknowledges something is an
if-and-only-if). And the evidence checker sees what is left of the Stream: it accepts exactly when the last durable
event is there and no message lacks its predecessor before it, so it refuses a published Execution whose messages
were trimmed, and even one whose events are all there but the first only as a late copy; while nothing of the
Execution is trimmed it decides whether every durable event is on the Stream.

**Canonical JSON and cursors** (`Json`, `JsonCanon`, `JsonParser`, `JsonRoundTrip`, `Base64`, `Calendar`,
`Cursor`, `TimeCursor`). A parser inverts the canonical printer, so two values have one fingerprint text exactly
when they are equal up to key order. Cursors decode to what they were made from exactly when their JSON has at
most 1536 bytes; time cursors keep the instant through the conversion to UTC.

**`$ref` closure** (`RefClosure`). The worklist that selects an OpenAPI document's components, over graphs that
may be cyclic and have dangling references.

**Migrations** (`Sql`, `OutboxMigration`, `Endpoint`, `EndpointNormal`, `TargetMigration`, `KeyMigration`). Tables with SQL's
three-valued CHECK and null-tolerant UNIQUE; each migration is its statements in order, rolled back when one
fails. Success is characterised exactly, in both directions. Findings: the baseline's content check admits an
event row without a sequence, and such a row is the one thing that stops revision 0010; revision 0014 can also
fail without a DISPATCHED row, when an id in a receipt's result is longer than the new column holds; the normal
form of an endpoint is not its own normal form exactly when it ends in a blank, as with `http://h/a /`, or when its
host has a bracket but no colon, as with `http://[v1.[x]/a`, and then revision 0008 leaves a row whose stored
endpoint no longer has the row's key, or no longer parses.

**Validation tooling** (`Suite`, `Workload`). The suite runner under every pattern of failures and interrupts,
and the generated output workloads against the check of their retained output. Finding: an interrupted suite
writes a summary that says PASSED; what PASSED does guarantee is stated as an if-and-only-if.

**Read model** (`Results`). Steps grouped into Operation bundles.

The random bytes, checksums, digests, clocks, replies of Redis and outcomes of commands are parameters.

## Model

| member | source | states |
|---|---|---|
| `Delivery.StepKeeps` | src/executor_service/infrastructure/outbox.py:91-266 | every step of every process keeps the invariants that relate events, rows, locks, Stream, group and store |
| `Delivery.ReachableInv` | src/executor_service/infrastructure/outbox.py:91-266 | the invariants hold after every sequence of steps |
| `Guarantees.FirstDeliveriesInOrder` | scripts/postgres_query_plan_smoke.py:11-22 | with any number of publishers, crashes and late arrivals, the first deliveries of an Execution are its events 1, 2, ..., k in order, and all of them once no row is PENDING |
| `Guarantees.CopiesIdentical` | src/executor_service/infrastructure/outbox.py:145-175 | two messages with one event id are equal |
| `Guarantees.PublishedRowsFormPrefix` | src/executor_service/infrastructure/outbox.py:95-117 | behind a PENDING row of an Execution every row is PENDING, so published rows form a prefix |
| `Delays.DelayedRowBlocks` | src/executor_service/infrastructure/outbox.py:93-122 | in every reachable state, an open publisher for which a PENDING row is not due holds neither that row nor any later row of its Execution |
| `Guarantees.SequencesContiguous` | src/executor_service/infrastructure/execution_worker/event_writer/persistence.py:18-67 | durable events of an Execution are numbered from 1 without gaps, whichever transactions roll back |
| `Guarantees.AppliedExactlyOnceInOrder` | scripts/agent_event_consumer_example.py:86-163 | the consumed rows of an Execution are its durable events up to the last applied sequence, each once and in order, and the state row is that of the last one |
| `Guarantees.AckedIsApplied` | scripts/agent_event_consumer_example.py:192-199 | every acknowledged message is applied and its row is in the store |
| `Guarantees.CollidesIffOutdated` | scripts/agent_event_consumer_example.py:97-163 | in every reachable state, the primary key refuses the INSERT a SELECT allowed if and only if the SELECT is out of date |
| `Collisions.CollisionFrom` | scripts/agent_event_consumer_example.py:97-163 | wherever the next event of an Execution is pending, two free consumers can run into that refusal |
| `Collisions.CollisionIsReachable` | scripts/agent_event_consumer_example.py:161-163 | a run from the empty system in which one of two consumers meets the refusal |
| `Guarantees.RefinesExactlyOnce` | scripts/agent_event_consumer_example.py:86-205 | every step of the whole system is invisible, appends durable events, or takes the next event of one Execution into the store |
| `AgentPreservation.RecordedIffApplied` | scripts/agent_event_consumer_example.py:97-133 | the primary key knows an event exactly when its sequence is applied |
| `AgentPreservation.WriteKeeps` | scripts/agent_event_consumer_example.py:114-163 | a write from a possibly outdated SELECT keeps the store in order: it changes nothing or adds the next event, and afterwards the event is applied |
| `Preservation.PublishNextKeeps` | src/executor_service/infrastructure/outbox.py:126-195 | one turn of a publishing loop, whatever its outcome, keeps the Stream in order and the locks consistent |
| `Preservation.SelectHeadsKeeps` | src/executor_service/infrastructure/outbox.py:93-117 | rows the first query locks belong to Executions no other open transaction holds |
| `Preservation.SelectFollowersKeeps` | src/executor_service/infrastructure/outbox.py:214-266 | a batch extended by followers stays a gapless ascending stretch for each Execution |
| `Recovery.OldestHasNoGap` | scripts/agent_event_consumer_example.py:235-265 | the oldest pending message of a group that reads from the start is never behind a gap |
| `Recovery.ReclaimPassAcksAll` | scripts/agent_event_consumer_example.py:255-265 | dealing in order with a queue of the oldest pending messages acknowledges every one of them |
| `Batches.SomeBatch` | src/executor_service/infrastructure/outbox.py:95-122 | on every table the two ordered and limited queries select a batch |
| `Batches.CallIsSteps` | src/executor_service/infrastructure/outbox.py:91-197 | a call of `publish_batch` with that batch, undisturbed, is a run of the step system |
| `Batches.CallsPublishAll` | src/executor_service/infrastructure/outbox.py:91-197 | with everything due and no other publisher, as many calls as there are PENDING rows publish all of them, whatever the batch size and whatever the queries return first |
| `CatchUp.FetchedIsDelivered` | scripts/agent_event_consumer_example.py:266-272 | on an untrimmed Stream the loop's read of 20 messages is the step system's delivery of 20 |
| `CatchUp.ConsumeIsSteps` | scripts/agent_event_consumer_example.py:176-205 | undisturbed, `ConsumeMessage` is the step system's read, settle and acknowledge |
| `CatchUp.TurnIsSteps` | scripts/agent_event_consumer_example.py:235-284 | a turn of the loop is a run of the step system with one claim of the idle ones among the 20 oldest pending messages and one delivery of 20 |
| `CatchUp.ViewAfterTurn` | scripts/agent_event_consumer_example.py:235-284 | that run leaves group and store as the loop's own turn does |
| `CatchUp.ReclaimAcksOldest` | scripts/agent_event_consumer_example.py:235-265 | in every state that keeps the invariants, with a group that reads an untrimmed Stream from its start, a pass over idle messages acknowledges all it looks at |
| `CatchUp.ReclaimCounts` | scripts/agent_event_consumer_example.py:235-265 | each such pass lowers the number of unacknowledged messages by 20, or to 0 |
| `CatchUp.TurnShortensBacklog` | scripts/agent_event_consumer_example.py:235-284 | each turn lowers twice the undelivered plus the unacknowledged messages, until there are none |
| `CatchUp.ConsumerCatchesUp` | scripts/agent_event_consumer_example.py:235-284 | from every reachable state with an untrimmed Stream, a group from its start and idle messages, as many turns as that backlog leave nothing undelivered and nothing pending, and the whole history applied if nothing was PENDING |
| `CatchUp.AlwaysRecoverable` | scripts/agent_event_consumer_example.py:235-284 | from every reachable state with an untrimmed Stream and a group from its start, publishers stop, calls of `publish_batch` of any size and turns of the loop lead to nothing PENDING, nothing unacknowledged, and the whole history of every Execution applied once and in order |
| `NoCopies.CalmRunsSendOnce` | src/executor_service/infrastructure/outbox.py:126-197 | without publisher crashes and network errors no event is on the Stream twice |
| `Publication.PublishRows` | src/executor_service/infrastructure/outbox.py:123-197 | the loop leaves each row, in place, published, delayed or untouched, and sends the messages, exactly as the step system's turns say; it counts the published rows |
| `Publication.LoopFollowsTurns` | src/executor_service/infrastructure/outbox.py:123-197 | row by row, the loop's flags, its messages and its rows are those of the step system's turns |
| `Publication.NoRowOvertakes` | src/executor_service/infrastructure/outbox.py:125-129 | a row is published only if every earlier row of its Execution in the batch is |
| `Publication.BackoffGrowsToAMinute` | src/executor_service/infrastructure/outbox.py:178-182 | the delay doubles from two seconds and stays at sixty from the sixth attempt on |
| `AgentConsumer.Consumer.ApplyOnce` | scripts/agent_event_consumer_example.py:86-163 | the store takes the event if it is the next one; the result says gap or applied, both ways |
| `AgentConsumer.Consumer.ConsumeMessage` | scripts/agent_event_consumer_example.py:176-205 | a message is acknowledged exactly when it parses and is not behind a gap, and ends the loop exactly when it is terminal as well and stopping was asked for |
| `AgentConsumer.Consumer.ConsumeAll` | scripts/agent_event_consumer_example.py:255-265 | messages are dealt with one after the other, up to and including the first that ends the loop and no further |
| `AgentConsumer.Consumer.ReclaimPass` | scripts/agent_event_consumer_example.py:236-265 | only idle ones among the 20 oldest pending messages leave the pending set, and only with their event in the store; unless the loop ends, each of them that could be acknowledged has been; the messages are dealt with in order up to the first that ends the loop |
| `AgentConsumer.Consumer.ReadPass` | scripts/agent_event_consumer_example.py:266-284 | the next 20 messages are read, fewer only at the end of the Stream; nothing delivered earlier changes; of the new ones, those not pending have their event in the store, and unless the loop ends those that could be acknowledged have been |
| `AgentConsumer.Consumer.TakeTurn` | scripts/agent_event_consumer_example.py:235-284 | one turn: what is idle is reclaimed, then what is new is read, unless a message ended the loop; when stopping was not asked for, no turn ends it |
| `AgentConsumer.PassLeaves` | scripts/agent_event_consumer_example.py:176-205 | over any list of messages the store only grows, messages leave the pending set only with their event in the store, and whatever could be acknowledged at the start is, up to the message that ends the loop |
| `AgentConsumer.NothingStops` | scripts/agent_event_consumer_example.py:205 | when stopping was not asked for, a pass deals with every message it was given |
| `AgentConsumer.ReclaimProgressIff` | scripts/agent_event_consumer_example.py:237-265 | a reclaim pass acknowledges something if and only if one of the 20 oldest pending messages is idle, parses and is not behind a gap |
| `Starvation.StarvedForGood` | scripts/agent_event_consumer_example.py:188-198 | once each of the 20 oldest pending messages does not parse or is behind a gap that nothing to be delivered fills, every pending message stays pending over any sequence of reclaims, reads and arrivals that do not fill it, also by consumers that stop halfway |
| `Starvation.StarvationHappens` | scripts/agent_event_consumer_example.py:235-284 | behind 20 messages that do not parse, one consumer that stops right after a read leads there, with an event pending that could be applied and never is |
| `Starvation.LateGroupStarves` | scripts/agent_event_consumer_example.py:206-284 | a run of the step system with valid messages only leads there: the group starts with `$` behind the first event of an Execution, and the first event of another one is pending for good |
| `Evidence.Collect` | scripts/interrupted_result_assertions.py:63-71 | the dict is filled without a failure exactly when copies agree, and then holds the first deliveries in order |
| `Evidence.CheckStream` | scripts/interrupted_result_assertions.py:54-75 | the assertions hold if and only if durable events are numbered 1 to n, copies agree, and first deliveries are the durable events in order |
| `Evidence.AcceptsEveryFullyPublishedStream` | scripts/interrupted_result_assertions.py:60-75 | the assertions hold in every reachable state in which the Execution has no PENDING row and none of its messages is trimmed |
| `Evidence.DecidesRetained` | scripts/interrupted_result_assertions.py:60-75 | in every reachable state, whatever was trimmed, the assertions hold on what XRANGE returns if and only if the last durable event is there and every message of the Execution there has sequence 1 or its predecessor before it |
| `Evidence.DecidesCompleteness` | scripts/interrupted_result_assertions.py:60-75 | while no message of the Execution is trimmed, they hold if and only if every durable event is on the Stream |
| `Trimming.TrimmedAwayIsRefused` | scripts/interrupted_result_probe.py:140-147 | from every reachable state, trimming all messages of an Execution that has events makes the assertions fail for it |
| `Trimming.PublishedThenTrimmed` | scripts/interrupted_result_probe.py:140-147 | a run in which they hold, then the older of two messages is trimmed, and they fail with nothing PENDING |
| `Trimming.LateCopyIsRefused` | scripts/interrupted_result_probe.py:140-147 | a run in which both durable events are on the Stream, the first as a late copy behind the second, and they fail |
| `Evidence.AcceptedStreamDelivers` | scripts/interrupted_result_assertions.py:69-75 | an Agent fed an accepted stream meets no gap and ends with exactly the durable events |
| `JsonCanon.SameCanon` | src/executor_service/domain/fingerprints.py:14-16 | values equal up to key order, at any depth, have one sorted form |
| `JsonRoundTrip.ParsePrint` | src/executor_service/domain/fingerprints.py:14-16 | the parser reads every printed value back and leaves what follows it |
| `JsonRoundTrip.LoadsEncode` | src/executor_service/application/pagination.py:70-81 | loading the canonical text of a value gives the value with its keys sorted |
| `JsonRoundTrip.EncodeDecidesSame` | src/executor_service/domain/fingerprints.py:9-17 | two values have one canonical text if and only if they are equal up to key order |
| `JsonRoundTrip.FingerprintDecidesSame` | src/executor_service/domain/fingerprints.py:9-17 | two requests share a fingerprint if and only if they are equal up to key order, unless the digest collides on them |
| `Base64.DecodeEncode` | scripts/t35_output_measurement.py:516-518 | strict decoding inverts encoding for every byte string and both alphabets |
| `Base64.StripThenPad` | src/executor_service/application/pagination.py:70-80 | the stripped text of n bytes has ceil(4n/3) characters, and padding it again restores it |
| `Cursor.CursorLength` | src/executor_service/application/pagination.py:70-77 | a cursor is at most 2048 characters long exactly when its JSON has at most 1536 bytes |
| `Cursor.DecodeEncodePayload` | src/executor_service/application/pagination.py:70-88 | decoding gives the key-sorted payload exactly when it is short enough and made for this collection, and names the refusal otherwise |
| `Cursor.IntegerCursor` | src/executor_service/application/pagination.py:58-88 | an integer cursor decodes to its value exactly when that is not negative, short enough and of this collection; every other case is refused with its reason |
| `Calendar.ToUtcKeepsInstant` | src/executor_service/application/pagination.py:35-43 | conversion to UTC keeps the instant and fails exactly outside the years 1 to 9999 |
| `TimeCursor.ReadIsoText` | src/executor_service/application/pagination.py:40-49 | the ISO text of a UTC time reads back as that time |
| `TimeCursor.ReadUuidText` | src/executor_service/application/pagination.py:41-50 | the text of a UUID reads back as that UUID |
| `TimeCursor.TimeCursorRoundTrip` | src/executor_service/application/pagination.py:35-55 | a time cursor decodes to the same instant and the same id for its own collection when its JSON has at most 1536 bytes, and is refused otherwise |
| `RefClosure.FindRefsSound` | scripts/generate_execution_redoc.py:138-149 | a reference that is found sits at the end of a chain of children |
| `RefClosure.FindRefsComplete` | scripts/generate_execution_redoc.py:138-149 | a component reference at any depth is found |
| `RefClosure.ReferencedComponents` | scripts/generate_execution_redoc.py:109-135 | on every graph the worklist ends, and selects exactly the existing two-part components some chain of references reaches, unchanged and with no empty group |
| `RefClosure.SelectionIsSelfContained` | scripts/generate_execution_redoc.py:109-135 | every reference in the document and in a selected component that named a component still names the same one |
| `RefClosure.SelectionIsLeast` | scripts/generate_execution_redoc.py:109-135 | every choice with that property holds all selected components |
| `OutboxMigration.BaselineRow` | migrations/versions/0001_current_executor_schema_baseline.py:111-121 | under the baseline's three-valued checks a row is a work row or an event row complete but for its sequence |
| `OutboxMigration.UpgradeEstablishes` | migrations/versions/0010_outbox_events_only.py:19-59 | of the new constraints only NOT NULL on the sequence can fail, and it fails exactly when an event row has none |
| `OutboxMigration.Transaction.Upgrade` | migrations/versions/0010_outbox_events_only.py:19-59 | the upgrade succeeds if and only if every event row has a sequence; it then keeps exactly the event rows under the new constraints, and otherwise changes nothing |
| `OutboxMigration.Transaction.Downgrade` | migrations/versions/0010_outbox_events_only.py:62-125 | the downgrade succeeds on every table the revision allows and establishes the baseline's constraints |
| `OutboxMigration.UpgradeUndoesDowngrade` | migrations/versions/0010_outbox_events_only.py:19-125 | upgrade after downgrade is the identity |
| `OutboxMigration.DowngradeUndoesUpgrade` | migrations/versions/0010_outbox_events_only.py:19-125 | downgrade after a successful upgrade is the original table restricted to event rows |
| `OutboxMigration.UnnumberedEventBlocksUpgrade` | migrations/versions/0001_current_executor_schema_baseline.py:115-121 | the baseline admits a table the upgrade refuses |
| `EndpointNormal.NormalizeTwiceIff` | migrations/versions/0008_runtime_target_connection_key.py:20-29 | the normal form of a well-formed http or https endpoint is its own normal form if and only if the endpoint's path without trailing slashes, or its host where nothing follows it, does not end in a blank, and its host does not have a bracket but no colon; in that case the normal form is malformed |
| `EndpointNormal.BlankBeforeSlash` | migrations/versions/0008_runtime_target_connection_key.py:22-29 | behind every host and path, a blank before a trailing slash survives the first pass and not the second |
| `EndpointNormal.BlankBeforeSlashExample` | migrations/versions/0008_runtime_target_connection_key.py:22-29 | so it is at `http://h/a /` |
| `EndpointNormal.BracketLost` | migrations/versions/0008_runtime_target_connection_key.py:22-29 | every bracketed host without a colon and with an opening bracket inside is accepted by the first pass, loses its brackets, and makes the second pass raise |
| `EndpointNormal.BracketLostExample` | migrations/versions/0008_runtime_target_connection_key.py:22-29 | so it is at `http://[v1.[x]/a` |
| `Endpoint.LiteralLowers` | migrations/versions/0008_runtime_target_connection_key.py:22-26 | the standard library's check of bracketed hosts, addresses of future versions included, accepts with a host its lower-case form, which is all that is asked of that check here |
| `EndpointNormal.NormalFormDecidesService` | migrations/versions/0008_runtime_target_connection_key.py:20-29 | two well-formed http or https endpoints, blanks or not, have one normal form if and only if scheme and host agree without regard to case, the ports in force agree, and the paths agree up to trailing slashes |
| `Endpoint.SpellingServes` | migrations/versions/0008_runtime_target_connection_key.py:23-29 | the spelling of every service is accepted and in normal form, unless its host has a bracket but no colon: then it is malformed |
| `TargetMigration.FillKeys` | migrations/versions/0008_runtime_target_connection_key.py:45-66 | the loop raises if and only if an endpoint is malformed, too long, or has the normal form of another one; otherwise every row has its normal form as endpoint and key |
| `TargetMigration.UpgradedKeys` | migrations/versions/0008_runtime_target_connection_key.py:67-77 | the keys are then present and distinct |
| `TargetMigration.UpgradedStaysIff` | migrations/versions/0008_runtime_target_connection_key.py:48-66 | the endpoint an upgraded row holds has that row's key as normal form if and only if the original endpoint does not end in a blank but for its slashes and its host does not have a bracket but no colon |
| `TargetMigration.Transaction.Upgrade` | migrations/versions/0008_runtime_target_connection_key.py:32-77 | the upgrade succeeds exactly then, establishes NOT NULL and UNIQUE, and otherwise changes nothing |
| `KeyMigration.UpgradeUniques` | migrations/versions/0014_scoped_idempotency_keys.py:41-89 | global uniqueness implies every scoped one, and keys are still globally unique after the upgrade |
| `KeyMigration.Transaction.Upgrade` | migrations/versions/0014_scoped_idempotency_keys.py:38-89 | the upgrade succeeds if and only if no Execution is DISPATCHED and every receipt scope fits its column; otherwise nothing changes |
| `KeyMigration.UuidScopesFit` | migrations/versions/0014_scoped_idempotency_keys.py:64-79 | with UUIDs as Execution ids the scopes fit, so only DISPATCHED stops the upgrade |
| `KeyMigration.LongScopeBlocksUpgrade` | migrations/versions/0014_scoped_idempotency_keys.py:64-79 | a receipt with a longer id stops the upgrade although no Execution is DISPATCHED |
| `KeyMigration.Transaction.Downgrade` | migrations/versions/0014_scoped_idempotency_keys.py:92-125 | the downgrade succeeds if and only if all submit, cancel, operation, retry and receipt keys are globally unique; otherwise nothing changes |
| `KeyMigration.DowngradeUndoesUpgrade` | migrations/versions/0014_scoped_idempotency_keys.py:38-125 | right after an upgrade the downgrade's condition holds and it restores the database |
| `Suite.Runner.Body` | scripts/local_validation_suite.py:199-226 | the loop ends normally with every planned step passed once and in order, or breaks at the one command that went wrong |
| `Suite.Runner.RunSuite` | scripts/local_validation_suite.py:188-270 | under every pattern of outcomes: exclusive steps find the Executor stopped, others find it running and restored since its last stop; the process ends normally exactly when every command succeeded; the summary says PASSED exactly when none failed, and then all planned steps passed and the Executor runs if and only if nothing was interrupted; an Executor left down means a compose command went wrong |
| `Workload.Validate` | scripts/t35_output_measurement.py:484-530 | no problem is reported if and only if the retained output has the size, the marker and, for images, one well-encoded picture with the PNG signature, and no error output; each kind of problem is reported exactly when it is there |
| `Workload.TextWorkloadPasses` | scripts/t35_output_measurement.py:135-148 | however its output is split into chunks, a text workload that does not raise is accepted if and only if its marker leaves room in the requested size |
| `Workload.PayloadCovers` | scripts/t35_output_measurement.py:144-146 | Base64 of the random bytes covers what is left of the request |
| `Workload.PngLength` | scripts/t35_output_measurement.py:159-169 | the chunks of the generated image add up to its size |
| `Workload.PngReadsBack` | scripts/t35_output_measurement.py:156-168 | a reader that verifies lengths and checksums gets the four chunks back from the generated image |
| `Workload.ImageWorkloadPasses` | scripts/t35_output_measurement.py:149-171 | an image workload that does not raise has exactly the requested size and is accepted, whatever else it printed |
| `Results.Group` | src/executor_service/application/execution_results.py:48-69 | grouping fails if and only if a step has no Operation, and otherwise each bundle holds its Operation's steps in their order |
| `Results.EveryStepOnce` | src/executor_service/application/execution_results.py:50-67 | with distinct Operations that cover the steps, the bundles hold every step exactly once |
| `Results.BundlesGiveStepsBack` | src/executor_service/application/execution_results.py:50-67 | read one after the other the bundles are the original list if and only if no step comes before a step of an earlier Operation |
| `Results.ConsecutiveRangesKeepOrder` | src/executor_service/application/execution_results.py:50-67 | consecutive sequence ranges are enough for that |

## Left out

- Executions, Attempts, Steps, claiming, leases and fencing: the model starts where an event is persisted.
- Several tenants: one Stream is modelled; tenants share nothing on this path but the outbox table.
- Retention of `execution_events`: the history is kept for good; deletion of published outbox rows and trimming of the Stream are modelled.
- Batch sizes and orders in the step system: there a publisher may lock any rows its queries admit, which allows more; single calls with the limit, the `created_at` order of heads and the order of followers by Execution and sequence are in `Batches`.
- Idle times of pending messages and due times of rows: parameters, not a clock; turns and calls that catch up find everything idle and due. A claim of no messages stands for the XCLAIM that is not sent.
- An XADD of unknown outcome may reach the Stream any number of times, and the Stream may be trimmed at any position, which allows more than Redis does.
- The pass bound and batch sizes of retention, cluster pass leases, and publisher polling.
- Floats, NaN, `default=str` leaves and lone surrogates in JSON; the parser refuses numbers with a fraction or an exponent.
- SHA-256: any function from texts to texts.
- Cursors with bytes outside ASCII, excess padding, `v` written as `1.0`, and the other spellings `fromisoformat` and `UUID` accept: the decoder of the model refuses them.
- The order of keys in the generated OpenAPI document: components are maps.
- Indexes, foreign keys and the audit columns of migrated tables, and migrations other than 0008, 0010 and 0014.
- EndpointNormal.NormalizeTwiceIff: only http and https endpoints with an authority; non-ASCII hosts are not covered, and which texts are IPv6 addresses is a parameter.
- Cursor.IntegerCursor: Python refuses to turn an integer of more than 4300 digits into text, so encoding it raises where the model returns a cursor.
- TargetMigration.FillKeys: a normal form longer than the column is an error even if the excess is blank.
- KeyMigration.Transaction.Upgrade: the `execution_id` text of a receipt's result is a field of the row, not read from JSON.
- Suite.Runner.RunSuite: durations, log files and the content of the steps; the Executor runs when the suite starts. Interrupts fall on whole commands: one that arrives after the last step's result was noted leaves every planned step passed, which the model does not tell apart.
- Workload.ImageWorkloadPasses: compressed pixels and checksums are parameters, and run ids are ASCII.
- Notebook pages, single cells and summaries: slicing of one list, which would only add easy members.
- HTTP and MCP adapters, Docker and Kubernetes drivers, resource sampling and percentiles.

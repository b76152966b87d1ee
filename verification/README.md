# SeshatOps event pipeline in Dafny

SeshatOps turns orders and traceability commands of an ERP into events, writes them to an outbox in the same
transaction, relays them to a broker under leases, and projects them into inventory and lineage tables with an inbox
that makes deliveries idempotent. This project models that pipeline and proves what it guarantees over whole runs:
with reordered, repeated and concurrent deliveries, failed transactions, interrupted re-drives, crashed relay workers,
lost broker answers, operator resets and rebuilds.

Verify with `dafny verify dfyconfig.toml`.

## How it is laid out

| file | what it models |
|---|---|
| `Events`, `Families` | envelopes, payloads, event families, and the codec interface (`Codec.Lawful`) |
| `Utf16`, `Json`, `JsonRoundTrip`, `Surrogates`, `Jcs`, `EnvelopeCodec` | canonical JSON (RFC 8785), the strict parser (RFC 8259), the surrogate scan, and the proof that the codec is lawful |
| `JsonGrammar`, `CanonicalForm`, `Contract` | a grammar of its own for the texts accepted; the canonical ones among them; the members, families and field checks of an envelope by name |
| `Projection`, `ProjectionSafety`, `Convergence`, `Consumer` | the consumer's transactions, re-drive, acknowledgements; safety for any deliveries; convergence for clean histories; the consumer as classes with loops |
| `Interleaving`, `DeskConvergence`, `TableInvariants`, `Dispositions` | any number of deliveries at once, one database operation at a time; what is owed while an event waits; properties of the tables lifted to every run and interleaving; which disposition an event gets and why |
| `Source`, `SourceInvariant`, `Erp`, `Acceptance`, `CommandFormat` | the ERP commands and the invariant they keep; the commands as a class; the answer to every command from the committed events alone; the ERP's checks against the contract's |
| `Relay`, `RowLife`, `RelayWorker` | the lease protocol with any number of workers; what a step does to a row and to the log; one worker's drain loop among the others |
| `EndToEnd`, `AtRest`, `Progress`, `Stranding`, `Pipeline` | source, relay, broker, interleaved deliveries, replays and resets composed; what rest means; that rest can be reached; what an ill-timed reset does; the same with the JSON codec plugged in |
| `TenantRebuild`, `Operator`, `Controls`, `Rebuild`, `Replays` | rebuilding one tenant from its outbox; the operator's controls on the running system; rebuilding everything from captured history; every replay as a run of the consumer, counter by counter |
| `LineageConcurrency`, `LineageRaces` | many transactions carrying one lineage event, interleaved statement by statement, where it is applied and where it is not |
| `Traceability` | causation chains and batch traces |
| `ForecastSource`, `ForecastStatus`, `Forecast`, `Datasets`, `Baselines` | the forecast source status, in clean states and on any tables; datasets, splits and feature rows, and what they say of the observations; offline and runtime baselines |
| `Checksum` | projection checksums |

Imperative source code is modelled by methods and classes (`Consumer`, `Erp`, `RelayWorker`, `Operator`, `Rebuild`,
`Jcs`, `Surrogates`, the loops of `ForecastSource`, `Forecast`, `Baselines`, `Checksum`), each proved equal to a
function; the theorems are about those functions and about runs of them.

What comes from outside is a parameter: SHA-256 is a function without collisions; the database decides which
transactions commit (`budget` counts the operations that succeed during a delivery, `commits` one commit) and which of
several tied rows `LIMIT 1` returns; the broker decides whether a publish is appended and whether it is answered;
lower-casing, Unicode white space, RFC 3339 parsing and calendar dates are functions or day numbers. Text is a sequence
of Unicode scalar values.

## Findings

Six promises hold only under a condition the code does not state. The first five are given as exact equivalences,
the last with its condition and the family of runs that break it.

- The backoff stored by `ReleaseTransient` is the documented one only up to 63 attempts; from the 64th the power of two
  no longer fits a `bigint`, the update fails and the row waits for its lease (`Relay.BackoffAgrees`).
- A tenant rebuild of a history in which every lineage aggregate has a single version 1 event can still be incomplete:
  the lineage tables also refuse a second child of one parent (`TenantRebuild.SharedSupplierIsIncomplete`,
  `Operator.TenantRebuildIsExact`).
- The forecast source of a fully applied tenant is incomplete if some event's `recorded_at` is not a whole number of
  microseconds, because the outbox column cannot hold it (`ForecastSource.StatusIsExact`).
- An event id stays bound to the content first recorded for it, except that a misaddressed delivery of the id replaces
  the recorded hash (`TableInvariants.ContentIsBound`, `TableInvariants.BindingChangesIff`).
- A command that passes every check of the ERP can still be refused as an invalid event: exactly when one of its
  timestamps is readable but not in the contract's form, or more than 2^53 - 1 is on hand
  (`CommandFormat.OrdersMakeEvents`, `CommandFormat.HopsMakeEvents`).
- "Whenever an event waits, some delivery that will see to it has failed or is under way" survives operator resets that
  find no delivery to the tenant under way (`AtRest.SystemAckObligation`). From every quiet state with an item at its
  fourth event, a reset during a delivery of that event can leave the item at its second event, the third one waiting,
  with nothing under way and nothing failed (`Stranding.LoudResetStrands`).

## Model

| member | source | states |
|---|---|---|
| `EndToEnd.RunKeepsInv` | platform/process.go:71-233 | every interleaving of ERP commands, rollbacks, relay steps, single database operations and crashes of any number of deliveries, replays and tenant resets keeps the joint invariant: outbox = history, log carries only history, relay invariant, tables and deliveries under way carry only events of the history |
| `EndToEnd.ResetKeepsInv` | platform/tenant_controls.go:23-60 | a tenant reset at any moment, whatever is under way, keeps that invariant |
| `EndToEnd.ProjectionIsPastSource` | platform/process.go:235-379 | in every reachable state, resets at any moment included, a projected item row is a row the source itself held at some point of the run, at a version no greater than the current one |
| `AtRest.SystemAckObligation` | platform/process.go:103-127 | over every run whose resets are quiet: whenever an item's next event waits, the latest delivery of one of its applied events has failed or is under way |
| `AtRest.RestIsExact` | relay/publish.go:150-200 | with everything published, delivered, nothing under way and nothing failed the inventory projection equals erp.inventory_items, row for row |
| `AtRest.RestHopsAreExact` | platform/lineage.go:89-183 | and the lineage tables then hold exactly the source's hops, each as its event wrote it |
| `Progress.ComesToRest` | relay/publish.go:96-200 | from every reachable state some relay and delivery steps, no command and no reset, lead to rest |
| `Progress.EveryRowGetsItsTurn` | relay/claim.go:64-144 | in every reachable state each outbox row, whenever it was inserted, is published with its bytes in the log or can be leased by any owner once the longest lease has passed |
| `Stranding.LoudResetStrands` | platform/process.go:522-580 | from every quiet state with an item projected at version 4 or more, a reset during a delivery leads to a quiet state with the item at version 2 and version 3 waiting |
| `Pipeline.JsonProjectionIsPastSource` | platform/process.go:71-128 | the same guarantee with the canonical JSON codec, no codec assumption left but a collision-free digest |
| `Pipeline.JsonRestIsExact` | platform/process.go:71-128 | exactness at rest with the canonical JSON codec |
| `Interleaving.SafetyOfInterleavings` | platform/process.go:71-233 | the safety of runs for any deliveries interleaved operation by operation, failing and crashing anywhere |
| `Interleaving.AloneIsProcessRecord` | platform/process.go:71-128 | a delivery whose operations follow one another is exactly `Projection.ProcessRecord`: tables, applied events, acknowledgement |
| `DeskConvergence.InterleavedAckObligation` | platform/process.go:103-127 | for any interleaving of deliveries of a clean history: whenever an item's next event waits, the latest delivery of an applied event of the item has failed or is under way |
| `ProjectionSafety.SafetyOfRuns` | platform/process.go:146-379 | after any deliveries (reused ids, wrong keys, skipped or stale versions, failures): no id applied twice, versions applied to an item are 1..n, quantity = first quantity-before minus all decrements and never negative |
| `ProjectionSafety.RedriveIsWellFounded` | platform/process.go:522-580 | in every reachable state each gap row re-parses to its own id, aggregate, version and hash and came ahead of the version it was checked against; with enough successful operations every delivery is acknowledged |
| `ProjectionSafety.DeliveryKeepsInv` | platform/process.go:71-128 | one delivery of anything keeps the safety invariant |
| `ProjectionSafety.RedriveTerminates` | platform/process.go:522-580 | re-drive ends because each repeated iteration removes a gap row |
| `Convergence.AckObligation` | platform/process.go:103-127 | whenever the next version of an item waits in the inbox, an applied event of that item has its latest delivery unacknowledged |
| `Convergence.AckedIsSettled` | platform/process.go:522-580 | with nothing unacknowledged each item is at its longest contiguous delivered prefix; gap rows are exactly the delivered events beyond it, done rows exactly those within it |
| `Convergence.OrderIndependence` | platform/process.go:235-379 | two delivery sequences over the same events, in any order and repetition, that end acknowledged leave the same projection and inbox |
| `Convergence.CleanTransaction` | platform/process.go:130-233 | a transaction over an event of a clean history keeps the clean state and does what the item's version alone tells |
| `Convergence.EnoughBudgetAcks` | platform/process.go:110-127 | a delivery whose database operations all succeed is acknowledged |
| `TableInvariants.RunKeeps` | platform/process.go:71-128 | any property of the tables that each transaction and each refusal record keeps holds after every run of deliveries |
| `TableInvariants.KeptOverDesk` | platform/process.go:71-128 | and after every interleaving of deliveries |
| `TableInvariants.ContentIsBound` | platform/process.go:438-471 | once an id has an inbox row, other content under that id is refused as a conflict after any further deliveries, acknowledged, applying nothing and touching no projection table, unless a misaddressed delivery of the id came between |
| `TableInvariants.BindingChangesIff` | platform/process.go:473-512 | one delivery changes the content hash of an id iff it is durable, misaddressed, of that id and of other content |
| `TableInvariants.HopsStayUnique` | platform/lineage.go:300-384 | after every run and every interleaving no two hops of a tenant and kind share a parent and no two shipments an order |
| `TableInvariants.EveryRowFromEvent` | platform/process.go:235-379 | after every run and every interleaving each item row has the key, and each hop row all columns, of a valid event |
| `TableInvariants.DoneMeansApplied` | platform/process.go:146-379 | after every run and every interleaving an inbox row says applied or duplicate_noop only for an event in the log of applied events, and the hop rows are those of the log |
| `Dispositions.InventoryDecided` | platform/process.go:235-379 | on any tables, for a valid inventory event the inbox has not decided: applied, gap, stale and transition mismatch each iff, by version against the item's and quantity-before against on-hand; the stored row with expected and received version; what changes in the item and that nothing else does |
| `Dispositions.LineageDecided` | platform/lineage.go:89-183 | the same for a lineage event: applied iff first version, no such hop and no sibling; duplicate, stale, gap and invalid each iff; the stored row and the hop written |
| `Dispositions.KnownDecided` | platform/process.go:146-206 | for an id the inbox has decided: conflict iff the content differs or did before, duplicate iff the same content was done, otherwise the recorded disposition with nothing written |
| `Dispositions.DeliveryReports` | platform/process.go:71-128 | what a delivery reports, acknowledges and writes when its transaction fails, its text does not parse, its key is wrong, or its transaction decides |
| `Dispositions.HistoryDecides` | platform/process.go:235-379 | after every run the report on an event with a new id is a function of the events applied so far: its version against the number applied to its item and its quantity-before against the last quantity-after, or its key, parent and order against the lineage events applied |
| `Dispositions.HistoryDecidesAmong` | platform/process.go:235-379 | the same for a transaction among any interleaved deliveries |
| `Consumer.Tx.ApplyProjection` | platform/process.go:235-379 | the writes of one inventory event equal `Projection.ApplyProjection`, whose decision `Dispositions.InventoryDecided` gives on any tables |
| `Consumer.Tx.ApplyLineage` | platform/lineage.go:89-183 | the writes of one lineage event equal `Projection.ApplyLineage`, whose decision `Dispositions.LineageDecided` gives on any tables |
| `Consumer.Tx.ProcessValidated` | platform/process.go:146-206 | the inbox decision and the event's writes inside one transaction |
| `Consumer.Store.ProcessValidated` | platform/process.go:130-233 | commits all of the transaction's writes or none |
| `Consumer.Store.QuarantineInbox` | platform/process.go:473-512 | overwrites the event's inbox row in its own transaction |
| `Consumer.Store.RedriveGaps` | platform/process.go:522-580 | the loop equals `Projection.Redrive` under any failure budget and tie break |
| `Consumer.Store.ProcessRecord` | platform/process.go:71-128 | tables, disposition and acknowledgement equal `Projection.ProcessRecord` |
| `Consumer.Store.ConsumeOnce` | platform/consume.go:95-163 | commits exactly the records before the first one that may not be acknowledged, counts them as acknowledged only if the commit succeeds, and reports which of fetch, decision and commit failed; a failed fetch changes nothing |
| `Consumer.PollOrder` | platform/consume.go:121-150 | the records of a poll are processed partition by partition, each partition in order |
| `Consumer.ObservedLag` | platform/consume.go:110-120 | the sum over the measured partitions, and whether there was one |
| `Consumer.LagCountsPlaces` | platform/consume.go:110-120 | the observed lag is the number of places in the log from the first record of each measured partition to its high watermark |
| `Consumer.LagCoversPoll` | platform/consume.go:28-32 | for offsets that ascend below the high watermark the observed lag is at least the number of records polled |
| `SourceInvariant.RunSourceKeepsInv` | erp/accept.go:49-167 | after any accepted, rejected or rolled-back commands: outbox events of an item are versions 1..v in bijection with its orders, quantities chain and end at on-hand, seed = on-hand + ordered, each lineage event is caused by its parent's event |
| `SourceInvariant.AdvanceKeepsInv` | erp/outbox.go:21-59 | one command keeps that invariant, and only extends the history |
| `Erp.FirstEvent` | erp/outbox.go:61-77 | finds the aggregate's event of least version |
| `Erp.Database.RequireOrderShipmentCausation` | erp/accept.go:203-225 | an order that a shipment carries must be caused by that shipment's event, any other by none |
| `Erp.Database.PrepareOutboxRow` | erp/outbox.go:21-47 | the pending row, refused exactly for an invalid event or a collision of id or version |
| `Erp.Database.AcceptOrder` | erp/accept.go:49-167 | tables and result equal `Source.AcceptOrder`: all four writes on commit, none otherwise; `Acceptance.EveryOrderIsAnswered` says what that result is |
| `Erp.Database.RequireHop` | erp/lineage.go:135-358 | the parent, item and causation checks of the hop commands |
| `Erp.Database.AcceptHop` | erp/lineage.go:83-377 | tables and result equal `Source.AcceptHop`; the unique constraints still hold; `Acceptance.EveryHopIsAnswered` says what that result is |
| `Acceptance.EveryOrderIsAnswered` | erp/accept.go:49-167 | in every state the source can reach: each error iff its condition on the command, the seeds and the committed events; accepted iff enough is on hand, a version is left, the cause is right, order and event id are unused, the event is valid and the commit succeeds; the emitted event field by field and the four tables after it |
| `Acceptance.EveryHopIsAnswered` | erp/lineage.go:83-377 | the same for the four hop commands |
| `CommandFormat.OrdersMakeEvents` | erp/accept.go:169-201 | with the canonical JSON codec, in every reachable state: an order that passes every check is an invalid event iff a timestamp is not in the contract's form or more than 2^53-1 is on hand |
| `CommandFormat.HopsMakeEvents` | erp/lineage.go:394-486 | a hop that passes every check is an invalid event iff a timestamp is not in the contract's form |
| `Relay.LeaseProtocol` | relay/claim.go:64-258 | for any owners, crashes and expiries: published rows have their exact bytes in the log under their key, rows keep their event, unfinished rows become claimable once the longest lease has passed, rows that agree with their bytes are never quarantined |
| `Relay.PublishedIsFinal` | relay/claim.go:148-170 | a published row never changes again |
| `Relay.ClaimRespectsLease` | relay/claim.go:81-134 | in every state, a claim by anyone leaves a row whose lease is running as it is and puts no copy of it in a queue |
| `Relay.LeaseIsExclusive` | relay/claim.go:64-258 | over any steps, until it expires a leased row changes only if a worker of its owner settles it |
| `Relay.LeasesDoNotOverlap` | relay/claim.go:64-144 | when a row is leased twice in a run, the first lease had expired or its owner had settled it |
| `Relay.ReleaseNeedsItsTenant` | relay/claim.go:206-233 | a release succeeds iff the row is quarantined and named by its own tenant, and then changes that row's status and nothing else |
| `Relay.QuarantineEndsByTenant` | relay/claim.go:206-233 | over any steps a quarantined row stays as it is unless an operator of its own tenant releases it |
| `RowLife.BackoffIs` | relay/claim.go:45-58 | the backoff is 1, 2, 4, 8, 16, 32 seconds and then always 60 |
| `RowLife.RowMoves` | relay/claim.go:64-258 | any step does to any row nothing or one of five things, each with its guard and every column after it: leased, published, released with its backoff, quarantined, released from quarantine |
| `RowLife.LogMoves` | relay/publish.go:150-200 | the log grows only by a publish attempt that reaches the broker, by the worker's bytes under tenant/type/aggregate; a row that disagrees with its bytes is never sent |
| `RowLife.QuarantineSaysWhy` | relay/publish.go:150-180 | over any steps the error of a quarantined row is malformed_envelope, unsupported_contract or aggregate_key_mismatch, whichever its bytes deserve |
| `Relay.AttemptsCountLeases` | relay/claim.go:113-134 | over every run publish_attempts is the number of times the row was leased |
| `Relay.TransientWaits` | relay/claim.go:174-198 | a row released after a failed publish is due again exactly when its documented backoff has passed |
| `Relay.NextKeepsInv` | relay/publish.go:150-200 | each protocol step keeps: published means in the log, a worker's copies are the rows, an acknowledged record is in the log |
| `Relay.BackoffAgrees` | relay/claim.go:174-198 | the SQL backoff is the documented one iff attempts <= 63 and fails iff attempts >= 64 |
| `RelayWorker.Drainer.SelectDue` | relay/claim.go:81-95 | the due rows of a prefix of the listing, stopping only at the limit or at its end: every id pending or publishing without a running lease, and all of those listed if fewer than the limit |
| `RelayWorker.Drainer.ClaimDue` | relay/claim.go:64-144 | refuses an empty owner; otherwise leases each selected row once, for the given or the default time in whole milliseconds, and returns the leased rows in order; no row with a running lease is touched or returned |
| `RelayWorker.Drainer.PublishOne` | relay/publish.go:150-200 | with anything done by others between publish and status update: quarantined iff refused and still leased, transient iff not answered and released, published iff answered and marked, ambiguous iff answered and the lease gone, failed iff the update could not be made; each says how the row moved, and equals the protocol's settle step |
| `RelayWorker.Drainer.DrainOnce` | relay/publish.go:96-127 | an empty owner is refused; otherwise the drain, interleaved with any steps of others, is a run of the protocol; each counter is the number of rows to which its outcome happened, and every claimed row has an outcome unless a status update failed |
| `RelayWorker.OthersRun` | relay/claim.go:64-258 | what the other workers do does not depend on this worker being at work |
| `TenantRebuild.RebuildIsExact` | platform/tenant_controls.go:248-389 | the replay reports complete iff there is history, it continues item by item and hop by hop, and no operation failed; then the projection is each item's last event and the hops; other tenants' rows are untouched in any case |
| `TenantRebuild.ContinuousIffContiguous` | platform/tenant_controls.go:65-129 | in the order of the query this is the order-free condition: versions from 1 without a break, linked quantities, first-version hops with unshared parents |
| `TenantRebuild.SharedSupplierIsIncomplete` | platform/lineage.go:300-384 | two lots of one supplier, each a single version 1 event, are never a complete rebuild |
| `Operator.TenantRebuildIsExact` | platform/tenant_controls.go:148-157 | the equivalence for any outbox whose rows agree with their envelopes and whose ids no other tenant's inbox holds |
| `Operator.SourceRebuilds` | platform/tenant_controls.go:148-157 | for every source the ERP can reach and any tables in which no other tenant's inbox row has one of the tenant's ids: rebuilding is complete iff the tenant has an event, then ends in the source's inventory and hops, and leaves other tenants alone |
| `Operator.ResetDerivedStateForTenant` | platform/tenant_controls.go:23-60 | removes the tenant's rows of every derived table and nothing else; refuses an empty tenant |
| `Operator.LoadTenantOutboxHistory` | platform/tenant_controls.go:65-129 | the records of the rows in order, or the error of the first row that does not parse or holds another tenant's event |
| `Operator.ReplayTenantRecords` | platform/tenant_controls.go:248-389 | tables, counters and status of the replay loop; another tenant's record is an error with no result, a record that cannot be acknowledged an error with the result so far |
| `Operator.RebuildTenantFromHistory` | platform/tenant_controls.go:148-157 | reset, load and replay; a failed load leaves the tenant reset |
| `Operator.ReplayTenantHistory` | platform/tenant_controls.go:134-143 | load and replay without a reset; a named event that is not the tenant's is not found and changes nothing |
| `Controls.RebuildInEveryRun` | platform/tenant_controls.go:148-157 | in every state of the composed system, whatever is under way, a rebuild with no failing operation is complete iff the tenant has an event, then matches the source, and leaves other tenants alone |
| `Controls.ReplayAtRestIsNoop` | platform/tenant_controls.go:131-143 | replaying a tenant's history at rest is complete, applies nothing, reports every event as a duplicate and leaves inventory and lineage unchanged |
| `Rebuild.RebuildFromHistory` | platform/rebuild.go:116-267 | tables, counters and status of the loop and the residual counts |
| `Rebuild.AnyOrderRebuild` | platform/rebuild.go:116-267 | over a clean history in any order with repetitions: each record counted once, tables settled, complete iff there were records, a tenant id and no hole in an item's delivered versions |
| `Rebuild.CompleteHistoryRebuilds` | platform/rebuild.go:116-267 | a complete clean history rebuilds completely from any permutation with repetitions, to the end of every chain |
| `Replays.ReplayIsTheRun` | platform/tenant_controls.go:248-389 | on any tables and records: if every record is the tenant's and acknowledged, the tables are those of the consumer's run, each counter is the number of records the consumer reports so, failures are the residual rows, complete iff nothing but applied, duplicate and gap was reported and no gap or failure remains; otherwise the replay ends at the first other record, with the counts before it |
| `Replays.OutcomeTells` | platform/tenant_controls.go:248-389 | what the operator gets in each of those cases: the counters, the counters with an error, or only an error |
| `Replays.RebuildIsTheRun` | platform/rebuild.go:116-267 | the same for the rebuild from captured history, with and without a reset first and a tenant id |
| `Replays.LoadIsRowByRow` | platform/tenant_controls.go:65-129 | a load gives one record a row, in order, with its bytes, key and position, or the error of the first row that does not parse or is another tenant's |
| `LineageConcurrency.ActKeepsInv` | platform/lineage.go:89-183 | one statement of one transaction keeps: one winner, locks exclusive, tables before or after one application |
| `LineageConcurrency.ExactlyOneApplies` | platform/lineage.go:89-183 | however transactions with the same event interleave or roll back: at most one reports applied, every other finished one duplicate_noop, one hop row, inbox row applied or duplicate_noop; some finish iff exactly one applied |
| `LineageConcurrency.AlreadyApplied` | platform/lineage.go:94-106 | if the event had been applied before, every finished transaction reports duplicate_noop and the hop stays |
| `LineageConcurrency.SameAsSerial` | platform/process.go:130-233 | the interleaving ends in the tables of one serial run, up to the row's two done dispositions |
| `LineageRaces.RaceIsSerial` | platform/lineage.go:89-183 | on any tables that do not let a lineage event through: however transactions with it interleave or roll back, every finished one reports what one alone would, and the tables are those before or those one alone leaves |
| `LineageConcurrency.NoDeadlock` | platform/lineage.go:203-232 | while a transaction is unfinished, some statement does not have to wait |
| `Traceability.ChainExists` | erp/lineage.go:135-358 | every lineage event has a causation chain inside its tenant down to a supplier event, of the length of its family |
| `Traceability.ChainUnique` | erp/outbox.go:61-84 | that chain is the only one |
| `Traceability.CausationIsWellFounded` | erp/lineage.go:83-377 | in every state the source can reach, every chain of causes of a lineage event has that length, stays in the tenant and ends at supplier.registered |
| `Traceability.EveryTraceIsLinked` | platform/lineage.go:406-461 | in every state of the system, adjacent hops present in a batch trace are linked by causation id = source event id |
| `Traceability.EveryHopIsItsEvent` | platform/lineage.go:300-384 | in every state of the system each projected hop is a source hop and carries its committed event column by column |
| `Traceability.SettledTraceIsWhole` | platform/lineage.go:406-461 | once everything is delivered and acknowledged a batch trace has its lot and supplier |
| `Traceability.RestTraceIsWhole` | platform/lineage.go:406-461 | when the composed system is at rest every batch trace has its lot and supplier and is linked throughout |
| `Traceability.RestTraceIsSource` | platform/lineage.go:406-461 | at rest the trace of a batch exists iff the source has the batch, and shows the committed events and columns of the batch, its lot and the lot's supplier, and its shipment iff it has one |
| `ForecastSource.LoadForecastEvents` | platform/forecast_features.go:165-273 | the kept events and the reasons, row by row |
| `ForecastSource.ReplayItem` | platform/forecast_features.go:338-365 | the final row and whether a version, transition or arithmetic check failed |
| `ForecastSource.ReplayMeetsProjection` | platform/forecast_features.go:311-405 | on clean states with exact timestamps the independent replay ends at the projection's rows, with no reason to report |
| `ForecastSource.StatusIsExact` | platform/forecast_features.go:55-133 | complete iff every inventory event is applied, stale iff some are not and none is a gap, incomplete iff one is, given timestamps in whole microseconds; otherwise always incomplete |
| `ForecastSource.StatusInEveryRun` | platform/forecast_features.go:55-133 | the same three equivalences, and the replay ending at the projection, in every state of the composed system |
| `ForecastSource.RestIsComplete` | platform/forecast_features.go:55-133 | at rest the status is complete iff every timestamp is in whole microseconds |
| `ForecastStatus.ChainedIff` | platform/forecast_features.go:311-383 | replaying an item's trusted events reports nothing iff their versions differ and each but the first follows one it links up with |
| `ForecastStatus.StatusOnAnyTables` | platform/forecast_features.go:55-405 | on any outbox and any tables: complete or stale iff every row is trusted or awaited, every inventory decision is a trusted row's, the trusted events chain, and the projection has exactly their items, each as its last event left it; complete iff moreover nothing is awaited |
| `Forecast.IndexObservations` | forecast/dataset.go:107-140 | the tenant's observations by item and day, or failure at an empty item, negative quantity, bad date or repetition |
| `Forecast.IndexHolds` | forecast/dataset.go:107-140 | the index holds exactly the tenant's observations |
| `Datasets.IndexSucceedsIff` | forecast/dataset.go:107-140 | indexing succeeds iff every observation of the tenant has an item, a date and no negative quantity and no two are of one item and day |
| `Forecast.RequireDense` | forecast/dataset.go:148-172 | accepts exactly the series without a calendar gap |
| `Forecast.LabelAt` | forecast/dataset.go:212-227 | scans the seven days after the date |
| `Forecast.LabelMeans` | forecast/dataset.go:212-227 | in a dense series the label is whether the item runs out within the horizon |
| `Forecast.AssignSplits` | forecast/dataset.go:196-210 | each date's split is given by its rank among the labelable dates |
| `Datasets.SplitsAreBlocks` | forecast/dataset.go:196-210 | the 70 earliest labelable dates train, the next 14 validate, the next 21 test, later ones have no split |
| `Datasets.RowsMean` | forecast/dataset.go:39-100 | a row exists iff the item was observed that day and seven days later and the day is one of the first 105; its label is whether the item was seen empty on one of the seven days after, its quantity the one observed, its split by the day's place |
| `Datasets.HashIsHistory` | forecast/dataset.go:229-246 | two rows have one history hash iff the same was observed of the item up to the day |
| `Forecast.NoFutureLeakage` | forecast/features.go:71-161 | feature rows up to day d (split, quantity, history hash) depend only on the keys and the quantities up to d |
| `Forecast.HistoriesDoNotLeak` | forecast/features.go:71-161 | the same for two accepted observation lists in any order |
| `Baselines.InputIsAccepted` | forecast/baselines.go:143-271 | dataset and snapshot of one accepted history with a row pass validation, the frozen split check included |
| `Datasets.FrozenIff` | forecast/baselines.go:358-368 | the three split checks come to one: each example's split is that of its day's place among the days, the first 105; one split a date and chronology follow |
| `Datasets.ValidInputIff` | forecast/baselines.go:143-271 | any examples and rows pass validation iff there is a row, the keys are the same, every item is named, labels are 0 or 1, every example is in its place, and every row has a quantity not negative and its example's split and history hash |
| `Datasets.ValidationFindsOtherHistory` | forecast/baselines.go:143-271 | a dataset of one accepted history and a snapshot of another pass validation together iff there is a row and both histories give the same rows |
| `Baselines.OfflineMovingAverage` | forecast/baselines.go:319-334 | the number of rows with quantity zero among the seven days up to the date, divided by seven; abstains iff one of the seven is missing |
| `Baselines.RuntimeMovingAverage` | forecast/runtime.go:307-327 | the same value, from the rows at or before the date |
| `Baselines.RuntimeSeasonal` | forecast/runtime.go:328-349 | one iff the first day of the week before that is not stocked is empty, abstains iff it is missing, zero iff all are stocked |
| `Baselines.ZeroDaysMeans` | forecast/baselines.go:319-334 | the count is the number of days of the window whose row has quantity zero, defined iff all rows are there |
| `Baselines.SeasonalDecides` | forecast/runtime.go:328-349 | on any rows the first day not stocked decides the seasonal score |
| `Baselines.BaselinesAgree` | forecast/runtime.go:268-358 | moving average: one score or abstention on every row; seasonal naive: equal wherever the offline form predicts, which is iff the item was observed seven days before; the runtime form predicts iff it was observed six days before |
| `Baselines.ObservedBaselinesAgree` | forecast/runtime.go:268-358 | from any list of observations that indexing accepts: dataset and snapshot pass validation, and both baselines agree and predict as above, with their scores as counts of the days observed empty |
| `Utf16.CompareUtf16` | event/content_hash.go:126-139 | the scan decides the UTF-16 order |
| `Utf16.LessUtf16IsTotal` | event/content_hash.go:126-139 | UTF-16 order is a strict total order on strings, because encoding is injective |
| `Utf16.LessUtf16Iff` | event/content_hash.go:126-139 | the order is that of the first different character, a proper prefix first, with supplementary characters between U+D7FF and U+E000 |
| `Utf16.AscendingIsSorted` | event/content_hash.go:96-103 | a set of names has one ascending list, so map iteration order cannot show |
| `Jcs.WriteRune` | event/content_hash.go:147-166 | writes the escape of one rune |
| `Jcs.JcsString` | event/content_hash.go:141-170 | the builder loop writes the quoted text |
| `Jcs.SortKeys` | event/content_hash.go:96-103 | sorts any iteration order to the one ascending list |
| `Jcs.JcsObject` | event/content_hash.go:96-124 | the canonical text of an object |
| `Jcs.JcsValue` | event/content_hash.go:81-94 | the canonical text of a value |
| `Jcs.DecodeValue` | event/parse.go:52-78 | decodes one value |
| `Jcs.DecodeObject` | event/parse.go:80-108 | the member loop decodes an object and refuses repeated names |
| `Json.ParseNumber` | event/parse.go:110-126 | a decoded number is an integer in 0 .. 2^53-1; `JsonGrammar.NumberIsRead` and `NumberWasWritten` say which texts are numbers and what they are |
| `JsonRoundTrip.TextReads` | event/content_hash.go:141-170 | an escaped text reads back as itself, whatever follows |
| `JsonRoundTrip.DocumentRoundTrip` | event/parse.go:33-126 | parsing the canonical text of any value gives the value |
| `JsonRoundTrip.PrintInjective` | event/content_hash.go:81-170 | different values have different canonical texts |
| `JsonRoundTrip.CanonicalForm` | event/parse.go:33-126 | every accepted text has a canonical form that means the same |
| `JsonGrammar.NumberIsRead` | event/parse.go:110-126 | an optional minus and digits without a leading zero, followed by what cannot continue a number, are read iff the value is at most 2^53-1 and not negative, as their decimal value |
| `JsonGrammar.NumberWasWritten` | event/parse.go:110-126 | every number read is such a token |
| `JsonGrammar.EscapeIsShortest` | event/content_hash.go:147-166 | the escape of a character is the shortest way to write it, and the only one of that length in lower case |
| `JsonGrammar.DecodesIff` | event/parse.go:33-126 | the strict decoder accepts exactly the texts of the grammar (RFC 8259 without arrays, booleans, fractions and repeated names) and returns what each means |
| `CanonicalForm.PrintsCanonically` | event/content_hash.go:81-170 | the program prints a value as its one canonical text: no spaces, shortest escapes in lower case, plain digits, names ascending |
| `Surrogates.ParseUnicodeEscape` | event/unicode.go:73-97 | the sixteen-bit unit of four hexadecimal digits, or failure |
| `Surrogates.RejectUnpairedSurrogateEscapes` | event/unicode.go:19-71 | accepts exactly the texts whose literals hold no unpaired surrogate escape |
| `Surrogates.ScanMakesStrict` | event/parse.go:33-50 | for every text, scan then lenient decoding equals decoding that refuses unpaired surrogates: U+FFFD is never substituted |
| `Families.FamilyOf` | event/families.go:280-300 | succeeds exactly for the five event types at schema version 1 |
| `EnvelopeCodec.PayloadRoundTrip` | event/families.go:302-422 | a payload's object decodes to the payload |
| `EnvelopeCodec.EnvelopeRoundTrip` | event/parse.go:128-203 | an envelope's object decodes to the envelope; `Contract.EnvelopeMembers` names its members |
| `EnvelopeCodec.ParseCanonical` | event/content_hash.go:15-24 | parsing the canonical text of a valid envelope gives the envelope; `Contract.ParsesIff` says which other texts give it |
| `EnvelopeCodec.CanonicalPassesScan` | event/unicode.go:19-71 | canonical text always passes the surrogate scan |
| `EnvelopeCodec.AcceptedHasCanonical` | event/parse.go:14-31 | any accepted text and its canonical text parse to the same envelope |
| `EnvelopeCodec.ParseValidates` | event/parse.go:14-31 | only valid envelopes are parsed |
| `EnvelopeCodec.ValidIsSound` | event/envelope.go:40-116 | validation gives the facts the projection relies on: version range, own id, quantity arithmetic |
| `Contract.EnvelopeMembers` | event/content_hash.go:56-79 | an envelope's object has exactly the fourteen members by name, each the field it names, and its payload exactly the members of its family |
| `Contract.EnvelopeDecodes` | event/parse.go:128-203 | an object decodes to an envelope iff it has exactly those members with those values |
| `Contract.PayloadDecodes` | event/families.go:302-422 | the same for the payload of each family |
| `Contract.FamilyNames` | event/families.go:280-300 | the five event types at schema version 1 and their aggregate types by name |
| `Contract.ValidatesIff` | event/envelope.go:40-162 | validation accepts an envelope iff every field is in its form and range and the payload goes with the type, aggregate and quantities; it says unsupported iff the ids are in order and the family is unknown |
| `Contract.UuidIff` | event/envelope.go:132-137 | the UUID check accepts exactly 32 hexadecimal digits in groups of 8, 4, 4, 4 and 12, of version 4 and variant 8 to b |
| `Contract.ParsesIff` | event/parse.go:14-31 | a text parses to an envelope iff it is a text of the grammar for exactly that envelope's members and the envelope is valid |
| `Contract.UnsupportedIff` | event/parse.go:14-31 | a text is refused as unsupported, not malformed, iff it is a well-typed envelope object of an unknown family |
| `Contract.KeyIdentifiesAggregate` | relay/claim.go:39-41 | two valid events have the same partition key iff tenant, aggregate type and aggregate id are the same |
| `EnvelopeCodec.JsonCodecIsLawful` | event/content_hash.go:15-34 | the JSON codec meets everything the pipeline theorems ask |
| `EnvelopeCodec.IdentityConflictIsDifference` | event/content_hash.go:38-54 | two valid envelopes conflict iff they share an id and differ |
| `Checksum.TextIsFaithful` | platform/checksum.go:53-70 | the sorted text does not depend on row order and is equal only for equal row sets |
| `Checksum.TenantChecksumIsFaithful` | platform/checksum.go:19-73 | for canonical projections equal inventory checksums iff the tenant's rows are equal |
| `Checksum.LineageChecksumIsFaithful` | platform/checksum.go:78-190 | for canonical projections equal lineage checksums iff the checksummed columns are equal, event and order ids up to case |
| `Checksum.ReachableIsCanonical` | event/envelope.go:138-162 | every projection reached by any deliveries, in sequence or interleaved, is canonical: keys in lower case without tab or newline |
| `Checksum.ChecksumsAreFaithful` | platform/checksum.go:19-190 | both equivalences for any two projections reached by any deliveries, with no assumption on the projections |
| `Checksum.ChecksumTextsAre` | platform/checksum.go:19-190 | what is digested of a reachable projection: one line a row in order of the keys, columns in this order separated by tabs |
| `Checksum.SortRows` | platform/checksum.go:53-58 | a permutation of any rows in order of their key fields |
| `Checksum.SortedIsTable` | platform/checksum.go:53-58 | if the keys are distinct that order is the only one |
| `Checksum.WriteLines` | platform/checksum.go:60-70 | the builder loop writes the lines |
| `Checksum.ChecksumTenant` | platform/checksum.go:19-73 | for any projection the digest of the tenant's rows, in lower case, sorted by key; on a canonical one that of the one sorted table |

## Left out

- Kafka client positions and rebalancing: deliveries are any sequence; `ConsumeOnce` is one poll.
- Statements of two transactions on one inventory item: transactions take effect one at a time and only whole operations of deliveries interleave; the statements of lineage transactions are interleaved in `LineageConcurrency`.
- SystemAckObligation: assumes that each reset finds no delivery to its tenant under way, because `LoudResetStrands` shows runs in which it fails otherwise.
- RestIsExact: the same assumption on resets, for the same reason; so are the other theorems about rest.
- ChecksumLineage as a loop: its text is that of `LineageChecksumIsFaithful`; the loop repeats that of `ChecksumTenant`.
- Database errors of a status update other than a missing lease or an overflowing backoff: a worker that meets one behaves like one that crashed.
- Poison handling and attempt counting: reached only through a test hook.
- Failure rows keep the tenant recovered from the bytes and nothing else; metadata of rebuild results is not modelled.
- ReleaseTenantQuarantine: it adds no step beyond the replay and the release of a row.
- UTF-8 validity: text is Unicode scalar values, so invalid byte sequences cannot be written down.
- Command format checks of the ERP (`wellFormed`) and their order among themselves: any predicate.
- Database isolation internals: the lock and visibility rules used are stated in `LineageConcurrency`.
- Daily observations and the boundary record of the forecast source: only events, replay, comparison and status are modelled.
- InputIsAccepted: leaves out the row id, checksum, version and identity checks of the pair, because they compare values computed the same way on both sides; the cutoff filter before indexing is left out too.
- Offline metrics (Wilson interval, average precision, Brier) and baseline selection: floating point.
- HTTP, SSE, sessions, identity policy, Python candidates, web UI and demo tooling: outside the event pipeline.
- BatchTrace trimming of its arguments: canonical ids hold no white space.
- ClaimDue: which rows other transactions have locked and the order by creation time are given as a listing.
- JsonCodecIsLawful: assumes the digest has no collisions, because SHA-256 is not modelled.
- ReachableIsCanonical: assumes that lower-casing works character by character and as usual on ASCII, because Unicode case mapping is not modelled.

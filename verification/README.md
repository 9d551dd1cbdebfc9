# Verified model of the Extrittio backend core

Extrittio is a multi-tenant backend for fleets of devices. This project models the parts of it that
decide what is stored and what is returned, and proves what they promise over every run.

The model is relational: a database is a value (`Db`, `Table`), a repository operation is a function
from a database to a database and an outcome, and a run folds a sequence of operations over a start
state. Code that updates tables in place is also written as a class (`MetricRepository`,
`OutboxRepository`, `AlertRepository`, `AccountRepository`, `DeviceRepository`,
`BlueprintRepository`) whose methods are proved equal to those functions. The theorems are about the
functions and about all runs of them.

| files | part of the system |
|---|---|
| `Aggregates`, `HourWindow`, `MetricStore`, `MetricHistory`, `MetricQuery`, `AnalyticsTheorems` | telemetry: recording, hourly rollups, pruning, and the queries that stitch raw samples and rollups together |
| `Selection`, `ClaimOrder`, `Outbox`, `OutboxRuns` | the rule-action outbox: fair claims, leases, fencing tokens, retries, bounded waiting |
| `Alerts`, `AlertRuns`, `Delivery` | alerts, delivery receipts, and workers that deliver from the outbox to the alerts |
| `Accounts`, `AccountRuns`, `OwnerSafety`, `OwnerRaces`, `AccessVersions` | users, roles and permissions, with interleaved transactions under row locks |
| `Shadows`, `Ota`, `OtaRuns` | device shadows and over-the-air deployments |
| `Blueprints`, `BlueprintRuns` | blueprint drafts and the chain of published revisions |
| `Wrappers`, `Limits`, `Tenancy`, `FiniteSets`, `TextOrder` | shared definitions |

Main results:

- Whatever was pruned, repeated or recorded out of order, an analytics range is answered exactly when
  everything it reads is retained (`AnsweredExactly`), and then with the buckets of the plain query over
  everything that was ever accepted (`KeptRangesAreAnswered`); the bucket widths for which this holds are
  exactly characterised (`WidthsThatAgree`).
- A claim holds for its lease (`ClaimsAreALeaseApart`), a settled or superseded one can never change the
  table again, tenants share every batch within one row, no row is stuck, and while no work is added a row changes before more claims that could
  take it have passed than the other rows have attempts left (`SupersededClaimIsFenced`,
  `SettledClaimIsFenced`, `ClaimIsFair`, `NoRowIsStuck`, `WaitingIsBounded`).
- At-least-once delivery with at-most-once effect, for workers that execute an action, settle the claim
  and may stop anywhere, over every run and next to every other kind of action, with the exact condition
  under which an execution succeeds (`AtMostOneAlertPerEvent`, `SucceededEventsWereApplied`,
  `RedeliveryHasNoEffect`, `CreationSucceedsExactly`, `DeliveryCompletes`, `NoEventIsStuck`,
  `EventsDoNotWaitForever`).
- With deletions and role changes interleaved statement by statement, a tenant keeps an owner in every
  run exactly when its owner role is a system role, no transaction is in flight that looked for the owner
  role too early and can still take an owner away, and none is about to write on a stale reading of the
  owners (`OwnerForeverExactly`); a role's new permissions are exactly what it grants from then on, the
  old ones revoked (`EffectiveAfterUpdate`); and every change of permissions or password shows in the permission
  version (`VersionsTrackAccess`).
- A device has one live deployment, its newest; the command in its shadow names that deployment
  exactly as long as the row exists (`CommandNamesLiveDeployment`), and late reports change nothing
  (`SupersededReportsAreIgnored`).
- A revision is stored with the draft and the comparison that are right at the moment of writing,
  although both were read without locks (`WrittenRevisionsAreUpToDate`).

Where the code falls short of what one would expect, the model follows the code and says exactly when:

- The analytics adapter uses rollups for every bucket width of an hour or more. Widths that are not a
  whole number of hours give buckets the history does not have (`OtherWidthsDisagree`); the application
  layer offers only widths that are fine.
- An hourly row re-created for the hour that straddles the watermark can be incomplete
  (`StraddlingRowCanBeIncomplete`); it is the only kind of row that can be (`OnlyStraddlingRowsCanMiss`),
  no accepted range reads it (`AcceptedRangesReadExactRows`), and maintenance never leaves one
  (`MaintainedRowsAreExact`).
- A failure report with a bound larger than the row's own leaves the row in a state no claim picks up
  (`ForeignBoundStrandsRow`, with a run in `StrandedRowIsReachable`). The workers pass back the claimed
  counters, which rules it out (`NoEventIsStuck`).
- A role named `owner` that is not a system role can be renamed, which leaves the tenant without owners
  (`RenameLosesOwners`). A transaction that looked for the owner role before the first owner was seeded
  checks nothing afterwards (`BlindIsUnchecked`) and can take the last owner away (`ThreatLosesOwners`,
  with a run in `SeedingCreatesThreat`). Its write also makes the count of another transaction stale,
  which then takes the last owner away (`StaleLosesOwners`, with a run in `CountGoesStale`).
- Deleting a firmware update deletes its deployments but not the command in the shadow; that command then
  stands until a new deployment or a reset (`DeletionOrphans`, `OrphanedOnlyByRemoval`, `OrphanStays`).
- Reporting the outstanding delta back empties it exactly when it holds no null (`ReportingBackSettles`).

## Model

| member | source | states |
|---|---|---|
| `HourWindow.TursoBucketIsFloor` | crates/backend-turso/src/analytics.rs:452 | the remainder arithmetic of the SQLite adapter labels every time, negative ones included, with the floor bucket the PostgreSQL adapter uses |
| `HourWindow.BucketOfHour` | crates/backend-turso/src/analytics.rs:525 | labelling an hourly row by a multiple of an hour labels every sample of that hour alike |
| `HourWindow.BucketOfHourBreaks` | crates/backend-postgres/src/analytics.rs:421 | for any other width above an hour some hour is labelled differently from a sample in it |
| `HourWindow.WideBucketOfHour` | crates/backend-postgres/src/analytics.rs:421 | a width beyond all times in use still labels hours and samples alike |
| `HourWindow.RollupWindowIsLargest` | crates/backend-core/src/analytics.rs:97-120 | the window is the largest hour-aligned interval of the range up to now, and is missing exactly when the range holds no full hour; no overflow check drops a valid window |
| `HourWindow.WindowHoldsFullHours` | crates/backend-core/src/analytics.rs:97-120 | a time is in the window if and only if its hour lies inside the range and is over |
| `HourWindow.RangeRetainedMeaning` | crates/backend-core/src/analytics.rs:124-137 | a range is accepted exactly when everything it reads raw is at or after the raw watermark and, with a window, its start is at or after the rollup watermark |
| `MetricStore.MetricRepository.RecordEvent` | crates/backend-postgres/src/events.rs:293-483 | says for each outcome exactly which events get it; a recorded event leaves its receipt, its row and a sample for each metric and keeps every older sample; otherwise nothing changes |
| `MetricStore.MetricRepository.PruneMetrics` | crates/backend-postgres/src/events.rs:163-204 | each watermark becomes the larger of itself and its cutoff; exactly the events and samples from before the raw one and the hours and receipts from before the rollup one are gone, the rest is unchanged, and the counts are the numbers of deleted rows |
| `MetricStore.PruneMeaning` | crates/backend-postgres/src/events.rs:163-204 | the same of the tables as values: a row is kept if and only if its own time or hour is at or after the advanced watermark |
| `MetricStore.RecordedExactly` | crates/backend-postgres/src/events.rs:303-362 | an event is recorded if and only if it is in time, comes from the assigned contract of a known device, has neither receipt nor row, its contract is on file and no field is named twice |
| `MetricStore.HourGains` | crates/backend-postgres/src/events.rs:384-462 | a float or integer metric adds one to the count and its value to the sum of its hour, any other metric adds nothing |
| `MetricStore.UpsertIsCombine` | crates/backend-postgres/src/events.rs:425-462 | the conflict clause adds a reading to the hour's count, sum, minimum, maximum and latest exactly as the commutative aggregate does, unless the row's latest is this very reading |
| `MetricStore.InsertMetricsSamples` | crates/backend-postgres/src/events.rs:384-424 | existing samples stay, each metric of the event gets its own new row |
| `MetricStore.InsertMetricsOnly` | crates/backend-postgres/src/events.rs:384-424 | no other sample row appears |
| `MetricStore.InsertMetricsDistinct` | crates/backend-postgres/src/events.rs:384-424 | an event that names a field twice is never recorded |
| `MetricStore.InsertMetricsRollups` | crates/backend-postgres/src/events.rs:425-462 | each hourly row is upserted at most once per event and rows of other fields do not change |
| `MetricHistory.InvRun` | crates/backend-postgres/src/events.rs:293-483 | every run keeps exact rollups, receipts for every event that could come again, and readable, unaltered raw samples above the watermarks |
| `MetricHistory.RollupsAreExact` | crates/backend-postgres/src/events.rs:425-462 | in every reachable state an hourly row at or after the watermark is the order-independent fold of all accepted readings of that hour and revision |
| `MetricHistory.OnlyStraddlingRowsCanMiss` | crates/backend-postgres/src/events.rs:425-462 | in every reachable state a stored row that misses a reading is that of the hour which straddles the watermark |
| `MetricHistory.ReadingsNeverTie` | crates/backend-postgres/src/events.rs:425-462 | the latest reading of a series is unambiguous |
| `MetricHistory.FreshEvent` | crates/backend-postgres/src/events.rs:303-352 | an event that passes the gate and the receipt check was never accepted for its time before |
| `MetricHistory.EventContributesOnce` | crates/backend-postgres/src/events.rs:303-352 | over all runs with redelivery and pruning an event id contributes at most once for one time |
| `MetricHistory.RedeliveryChangesNothing` | crates/backend-postgres/src/events.rs:303-352 | delivering an accepted event again changes no table, while its receipt lives and after it was pruned |
| `MetricHistory.WatermarksNeverRetreat` | crates/backend-postgres/src/events.rs:171-194 | both watermarks are monotone over any continuation of a run |
| `MetricQuery.SamplesQueryIsHistory` | crates/backend-postgres/src/analytics.rs:342-396 | the sample query over the surviving rows equals the same query over the full history |
| `MetricQuery.RawRowsFold` | crates/backend-postgres/src/analytics.rs:398-448 | the raw half of a stitched bucket folds exactly the readings outside the window |
| `MetricQuery.HourlyRowsFold` | crates/backend-postgres/src/analytics.rs:398-448 | the hourly half of a stitched bucket folds exactly the readings inside the window |
| `MetricQuery.RollupsQueryIsHistory` | crates/backend-postgres/src/analytics.rs:398-448 | the union of both halves equals the plain query over the full history |
| `AnalyticsTheorems.AnswerIsHistory` | crates/backend-postgres/src/analytics.rs:131-339 | after every run an answered range returns the buckets of the plain query over everything ever accepted |
| `AnalyticsTheorems.AnsweredExactly` | crates/backend-postgres/src/analytics.rs:144-294 | a read is refused as expired if and only if some time of its range is no longer retained where it is read from, reports too many devices if and only if more than allowed are compatible, and is answered otherwise |
| `AnalyticsTheorems.KeptRangesAreAnswered` | crates/backend-postgres/src/analytics.rs:131-339 | after every run a retained range over few enough devices is answered, with the buckets of the whole history |
| `AnalyticsTheorems.WatermarksAreCutoffs` | crates/backend-postgres/src/events.rs:171-194 | in every run each watermark is the largest cutoff it was given, or where it began |
| `AnalyticsTheorems.UnprunedIsNeverExpired` | crates/backend-postgres/src/analytics.rs:152-167 | after a run without pruning no range from the beginning on is refused as expired |
| `AnalyticsTheorems.BucketsOccur` | crates/backend-postgres/src/analytics.rs:342-396 | a listed device has a bucket if and only if an aligned interval of the width holds a reading of the metric in the range |
| `AnalyticsTheorems.BucketMeaning` | crates/backend-postgres/src/analytics.rs:342-396 | the count, average, minimum, maximum and latest of a bucket, said of the accepted readings of its device, metric, revisions, range and interval |
| `AnalyticsTheorems.OtherWidthsDisagree` | crates/backend-postgres/src/analytics.rs:144-167 | for every other width some run and range return a wrong bucket |
| `AnalyticsTheorems.WidthsThatAgree` | crates/backend-postgres/src/analytics.rs:144-167 | a width agrees with the history in all runs if and only if it is below an hour, a whole number of hours, or beyond the calendar |
| `AnalyticsTheorems.StraddlingRowCanBeIncomplete` | crates/backend-postgres/src/events.rs:425-462 | a concrete run leaves an incomplete row before the watermark |
| `AnalyticsTheorems.AcceptedRangesReadExactRows` | crates/backend-postgres/src/analytics.rs:144-167 | every hourly row an accepted range reads is exact |
| `AnalyticsTheorems.CutoffsAreOrdered` | crates/backend-core/src/application/metric_maintenance.rs:29-56 | there are cutoffs if and only if the periods are positive, ordered and within the calendar; each is the full hour its period began, the rollup one not after the raw one |
| `AnalyticsTheorems.MaintenanceMarks` | crates/backend-core/src/application/metric_maintenance.rs:18-56 | under maintenance the rollup watermark stays on the hour and never passes the raw watermark |
| `AnalyticsTheorems.MaintainedRowsAreExact` | crates/backend-core/src/application/metric_maintenance.rs:18-56 | under maintenance every stored hourly row is the exact fold of the accepted readings |
| `AnalyticsTheorems.AnswerIsComplete` | crates/backend-postgres/src/analytics.rs:185-262 | under maintenance no device with a reading in an accepted range is missing from the device list, so the answer covers the whole scope |
| `AnalyticsTheorems.ListedDevices` | crates/backend-postgres/src/analytics.rs:185-211 | under maintenance a device of the scope is listed if and only if it is assigned a compatible revision now or has a reading of the metric that the rollups still know |
| `ClaimOrder.Take` | crates/backend-postgres/src/outbox_sql.rs:60-112 | the batch holds candidates only, and as many as the limit allows |
| `ClaimOrder.TakeOrdered` | crates/backend-postgres/src/outbox_sql.rs:60-112 | the batch is in claim order, each row once |
| `ClaimOrder.TakeLeavesLater` | crates/backend-postgres/src/outbox_sql.rs:60-112 | no taken row sorts after a candidate that was left |
| `ClaimOrder.TenantsShareFairly` | crates/backend-postgres/src/outbox_sql.rs:60-112 | a tenant left with work got at least as many rows as any other, give or take one |
| `TextOrder.LessMeaning` | crates/backend-postgres/src/outbox_sql.rs:70 | text order is decided at the first difference, where the smaller text ends or has the smaller character |
| `Outbox.OutboxRepository.EnqueueActions` | crates/backend-postgres/src/outbox.rs:161-185 | rows stay, every event has a row afterwards or an unfinished row of its tenant and kind has its key, each new row is pending and due at once, live keys stay unique and the answer is the number of new rows |
| `Outbox.EnqueueMeaning` | crates/backend-postgres/src/outbox.rs:161-185 | the same of the table as a value, for any list of events |
| `Outbox.OutboxRepository.ClaimBatchRows` | crates/backend-postgres/src/outbox_sql.rs:27-114 | a claimed row was due or its lease was over, had an attempt left, and is locked under the token from now on; every other row is unchanged or, its lease over after its final attempt, a dead letter; locked rows are skipped; one record per claimed row, at most the limit |
| `Outbox.OutboxRepository.Succeed` | crates/backend-postgres/src/outbox_sql.rs:116-135 | answers whether the token could settle the row; a settled row has succeeded and is unlocked, the token settles nothing afterwards, and no other row changed |
| `Outbox.OutboxRepository.Fail` | crates/backend-postgres/src/outbox_sql.rs:137-166 | settles for the token's holder reporting its own attempt and for nobody else; the row waits for the delay of that attempt or is a dead letter, and the token settles nothing afterwards |
| `Outbox.OutboxRepository.ReplayDeadLetters` | crates/backend-postgres/src/outbox_sql.rs:211-245 | exactly the dead letters of the tenant that were asked for start over, due at once, and the answer is their number; refused if and only if one of them has the key of a live row or of another one |
| `Outbox.ReplayRefusedExactly` | crates/backend-postgres/src/outbox_sql.rs:211-245 | a replay fails if and only if a row it would revive has the key of a live row or of another such row |
| `Outbox.ClaimEffect` | crates/backend-postgres/src/outbox_sql.rs:27-114 | what a claim makes of each row, in terms of its delay, its lock time and the lease |
| `Outbox.LeaseCutoffMeaning` | crates/backend-postgres/src/outbox_sql.rs:36-38 | the cutoff separates the locks whose lease is over from those whose lease is not |
| `Outbox.LiveLeaseIsRespected` | crates/backend-postgres/src/outbox_sql.rs:43-48 | a row whose lease is not over is neither claimed nor given up |
| `Outbox.ClaimRecords` | crates/backend-postgres/src/outbox_sql.rs:27-114 | one record per claimed row with the token and the row's new counters, at most the limit, none for a row locked elsewhere |
| `Outbox.SettledBy` | crates/backend-postgres/src/outbox_sql.rs:116-166 | settle calls with a token are ignored if and only if the token does not hold the row's lock |
| `Outbox.BackoffSchedule` | crates/backend-core/src/outbox.rs:96-106 | the delay is 2 seconds, doubling with each attempt up to 256; dead letter exactly on a permanent failure or the last attempt |
| `OutboxRuns.ClaimTakesSoonest` | crates/backend-postgres/src/outbox_sql.rs:60-112 | no claimed row sorts after an eligible unlocked row that was not claimed |
| `OutboxRuns.EarlierRowsFirst` | crates/backend-postgres/src/outbox_sql.rs:60-112 | a claim never takes a row and leaves an earlier claimable unlocked one of the same tenant, or one that is the first of its tenant |
| `OutboxRuns.ClaimIsFair` | crates/backend-postgres/src/outbox_sql.rs:60-112 | with nothing locked elsewhere a tenant left waiting got at least as many rows as any other, give or take one |
| `OutboxRuns.FencedRun` | crates/backend-postgres/src/outbox.rs:51 | with a fresh token per claim, in every run the lock of a row is that of its latest claim and settled claims hold none |
| `OutboxRuns.SupersededClaimIsFenced` | crates/backend-postgres/src/outbox_sql.rs:92-166 | in every run neither a success nor a failure report of a superseded claim changes the table |
| `OutboxRuns.SettledClaimIsFenced` | crates/backend-postgres/src/outbox_sql.rs:92-166 | each claim is settled at most once and later reports of it are ignored |
| `OutboxRuns.WrongAttemptIsFenced` | crates/backend-postgres/src/outbox_sql.rs:137-166 | a failure report with another attempt's number is ignored |
| `OutboxRuns.ClaimsAreALeaseApart` | crates/backend-postgres/src/outbox_sql.rs:36-48 | from any state two claims of one event with no settlement or replay in between are at least a lease apart, whatever other claims came in between |
| `OutboxRuns.WaitingRun` | crates/backend-postgres/src/outbox_sql.rs:137-166 | when workers pass back the claimed counters every waiting row has attempts left |
| `OutboxRuns.NoRowIsStuck` | crates/backend-postgres/src/outbox_sql.rs:33-114 | in every run and for every limit a row is terminal, or the next claim after its delay or lease moves it, or that claim is full of rows that come before it |
| `OutboxRuns.LeftOutOnlyByFullBatch` | crates/backend-postgres/src/outbox_sql.rs:60-112 | a claim that leaves a claimable unlocked row out holds as many rows as its limit |
| `OutboxRuns.WaitingIsBounded` | crates/backend-postgres/src/outbox_sql.rs:33-114 | after any run, while no work is added, a row changes before more claims that could take it have passed than the other rows have attempts left; claims that find rows locked and any reports may come in between |
| `OutboxRuns.OneUnfinishedRowPerKey` | crates/backend-postgres/migrations/00000000000001_blueprint_baseline/up.sql:876 | in every run a tenant has at most one unfinished row of a kind and idempotency key |
| `OutboxRuns.ForeignBoundStrandsRow` | crates/backend-postgres/src/outbox_sql.rs:137-166 | a failure report strands the row if and only if it is retryable and its bound promises attempts the row lacks |
| `OutboxRuns.StrandedRowIsReachable` | crates/backend-postgres/src/outbox_sql.rs:137-166 | a concrete run strands its only row |
| `OutboxRuns.ClaimsAreBounded` | crates/backend-postgres/src/outbox_sql.rs:33-114 | without replay an event is claimed at most as often as its own bound says |
| `Alerts.AlertRepository.Create` | crates/backend-postgres/src/alerts.rs:195-259 | says for each outcome exactly when it is given; an applied creation leaves its receipt for the alert it found, the open one of the slot created last, or for a new active one if there was none; a refusal changes nothing and slots keep at most one open alert |
| `Alerts.AlertRepository.TransitionOne` | crates/backend-postgres/src/alerts.rs:92-191 | says for each outcome exactly when it is given; a changed alert has the status asked for and is stamped with the time, the cooldown of its slot follows, and no other alert changes; a conflict names an open alert of the slot; slots keep at most one open alert |
| `Alerts.AlertRepository.TransitionBulk` | crates/backend-postgres/src/alerts.rs:348-389 | what is changed is what is reported, it reached the status asked for, and what is not reported could not be changed afterwards either; slots keep at most one open alert |
| `Alerts.BulkMeaning` | crates/backend-postgres/src/alerts.rs:348-389 | over sorted ids only reported alerts change, and each has the status asked for |
| `Alerts.BulkDoesAllItCan` | crates/backend-postgres/src/alerts.rs:348-389 | every alert that is reported could be changed before, and none that was asked for and is not reported can be changed after |
| `Alerts.AlertRepository.DeleteAllResolvedBefore` | crates/backend-postgres/src/alerts.rs:404-419 | an alert is gone if and only if it was resolved before the cutoff, the others stay as they are, and the answer is how many fewer there are |
| `Alerts.SortedIdsMeaning` | crates/backend-postgres/src/alerts.rs:348-389 | bulk requests are processed in ascending order, each id once |
| `Alerts.CreateEffect` | crates/backend-postgres/src/alerts.rs:195-259 | a creation adds at most one alert, an active one in a free slot, and only together with its receipt |
| `Alerts.CreatedExactly` | crates/backend-postgres/src/alerts.rs:195-259 | a creation is refused for its device if and only if it has no receipt and the device is unknown; with device and rule known, an unused id and a free slot it inserts its alert; with an open alert in the slot it returns that one |
| `Alerts.TransitionedExactly` | crates/backend-postgres/src/alerts.rs:92-191 | a transition is carried out if and only if alert and device exist, the status is neither the one asked for nor resolved under an acknowledgement, and no open alert holds the slot of a reactivation |
| `Alerts.RuleDeletionMeaning` | crates/backend-postgres/migrations/00000000000001_blueprint_baseline/up.sql:924-933 | deleting a rule clears it from its alerts, removes its cooldowns and changes nothing else |
| `AlertRuns.InvRun` | crates/backend-postgres/src/alerts.rs:92-259 | every run keeps one open alert per slot, timestamps that agree with the status, and one insertion per delivery |
| `AlertRuns.SlotHasAtMostOneOpenAlert` | crates/backend-postgres/src/alerts.rs:220-251 | in every reachable state a tenant, rule and device have at most one open alert |
| `AlertRuns.RetentionIsExact` | crates/backend-postgres/src/alerts.rs:404-419 | timestamps agree with the status in every reachable state, so retention keeps open alerts and removes exactly those resolved before the cutoff |
| `AlertRuns.DeliveryInsertsOnce` | crates/backend-postgres/src/alerts.rs:427-461 | over any run a delivery inserts at most one alert |
| `AlertRuns.ReceiptsAreForever` | crates/backend-postgres/src/alerts.rs:447-461 | receipts are never changed or removed |
| `AlertRuns.LaterDeliveryReturnsReceipt` | crates/backend-postgres/src/alerts.rs:427-461 | after any steps a later delivery changes nothing and returns the receipt's alert, or none if retention removed it |
| `AlertRuns.BulkReactivationReopensOne` | crates/backend-postgres/src/alerts.rs:348-389 | reactivating many alerts of a closed slot reopens the first and leaves the others resolved |
| `AlertRuns.BulkReactivationPicksLeast` | crates/backend-postgres/src/alerts.rs:348-389 | in whatever order and however often the ids come, the least id is the one reopened |
| `Delivery.InvRun` | crates/backend-core/src/application/rule_delivery.rs:28-43 | in every run of claims, executions, settlements and crashes, creations that succeeded or that a worker finished have their receipt, and waiting rows have attempts left |
| `Delivery.OutboxKeepsRows` | crates/backend-postgres/src/outbox_sql.rs:116-135 | outbox rows are never removed, keep tenant and kind, and succeed only when told so |
| `Delivery.AtMostOneAlertPerEvent` | crates/backend-core/src/application/rule_delivery.rs:44-71 | in every run an event inserts at most one alert |
| `Delivery.SucceededEventsWereApplied` | crates/backend-core/src/application/rule_delivery.rs:28-43 | in every run a creation the outbox counts as delivered has its receipt |
| `Delivery.RedeliveryHasNoEffect` | crates/backend-core/src/application/rule_delivery.rs:44-71 | in every run executing a claim of an applied creation again changes no table and reports success |
| `Delivery.CreationSucceedsExactly` | crates/backend-core/src/application/rule_delivery.rs:44-71 | in every run executing a creation succeeds if and only if it was applied before, or its device is known and its slot has an open alert or its rule exists; it then has its receipt, and a new active alert if the slot had none open |
| `Delivery.ReportsTakeEffect` | crates/backend-core/src/application/rule_delivery.rs:39-42 | while a claim holds its row, the report makes the event succeeded, waiting or dead as executed; without the lock it changes nothing |
| `Delivery.DeliveryCompletes` | crates/backend-core/src/application/rule_delivery.rs:28-43 | in every run one execution and one report of a claim that holds deliver a creation that can be applied |
| `Delivery.OtherActions` | crates/backend-core/src/application/rule_delivery.rs:28-110 | a resolution succeeds if and only if the alert is there and unresolved, and stamps it; other actions change no alert; an unreadable action fails for good |
| `Delivery.NoEventIsStuck` | crates/backend-core/src/application/rule_delivery.rs:39-42 | in every run of the workers no row is stranded: a due row is moved by the next claim that does not find it locked, or that claim is full of rows before it |
| `Delivery.EventsDoNotWaitForever` | crates/backend-core/src/application/rule_delivery.rs:28-43 | the same bound on waiting after any run of the workers, with executions, settlements and alert changes in between |
| `Delivery.DecodedType` | crates/backend-core/src/rule_actions.rs:139-169 | an action is read if and only if it is stored with the type of the event, and it creates an alert if and only if that type says so |
| `Accounts.AccountRepository.ReplaceUserRoles` | crates/backend-postgres/src/users.rs:161-197 | the user has exactly the given roles and a version one higher, and nobody else changes |
| `Accounts.AccountRepository.Create` | crates/backend-postgres/src/users.rs:270-314 | creates a user if and only if the roles can be given and the name is free; the user has an unused number and exactly the requested roles or the role named viewer, and nobody else changes; a refusal changes nothing |
| `Accounts.AccountRepository.SetPassword` | crates/backend-postgres/src/users.rs:316-343 | an existing user gets the hash and a version one higher and keeps every permission; nobody else changes |
| `Accounts.AccountRepository.Delete` | crates/backend-postgres/src/users.rs:345-398 | refuses if and only if the user is the tenant's only owner; otherwise the user is gone with every grant and nobody else changes |
| `Accounts.AccountRepository.AssignRoles` | crates/backend-postgres/src/users.rs:400-468 | refuses if and only if the user is the tenant's only owner and would stop being one; otherwise the user has exactly the given roles |
| `Accounts.AccountRepository.AddRole` | crates/backend-postgres/src/roles.rs:117-142 | adds a role if and only if its name is free and no permission is repeated; it has the permissions given, is no system role and is held by nobody |
| `Accounts.AccountRepository.Update` | crates/backend-postgres/src/roles.rs:144-206 | the role has exactly the new name and permissions; holders get a version one higher and may do exactly what the list or another role of theirs grants; what others may do stays the same, and system roles never change |
| `Accounts.AccountRepository.RemoveRole` | crates/backend-postgres/src/roles.rs:208-253 | removes a role if and only if it exists, is no system role and nobody holds it; nobody loses a permission |
| `Accounts.AccountRepository.Seed` | crates/backend-postgres/src/bootstrap.rs:59-117 | with no user in the system the seeded user is the only user and owner and may do everything, a missing owner role is added as a system role and no other role changes; otherwise nothing changes |
| `Accounts.EffectiveAfterUpdate` | crates/backend-postgres/src/roles.rs:144-206 | after new permissions a holder may do something if and only if the list or another role of the holder grants it, so the rest is revoked; everybody else may do exactly what they could before |
| `Accounts.UpdatedExactly` | crates/backend-postgres/src/roles.rs:155-187 | a role is updated if and only if it is the tenant's, no system role, the new name is not that of another role and no permission is repeated |
| `Accounts.RequestedExactly` | crates/backend-postgres/src/users.rs:270-314 | the roles of a new user are those asked for, if all are the tenant's, or without any the one role named viewer |
| `Accounts.OnlyHolder` | crates/backend-postgres/src/users.rs:366-385 | membership and a count of at most one mean being the only holder |
| `AccountRuns.Run` | crates/backend-postgres/src/users.rs:345-468 | in every state of every interleaving the keys and references hold, locks are exclusive and locked rows are still there |
| `AccountRuns.WaitsExactly` | crates/backend-postgres/src/roles.rs:155-198 | user creation, password and role changes and seeding wait if and only if a transaction in flight holds a lock they need, and otherwise do what they do alone |
| `OwnerSafety.UndisturbedIsSerial` | crates/backend-postgres/src/users.rs:345-468 | in any company, the statements of a deletion or role replacement run back to back are the serial operation when no lock is in their way |
| `OwnerSafety.WriteLeavesOwner` | crates/backend-postgres/src/users.rs:366-392 | a write that passed the count, or could not take an owner away, leaves an owner |
| `OwnerSafety.LastOwnerIsKept` | crates/backend-postgres/src/users.rs:345-468 | with a system owner role and no threat in flight, no interleaving leaves the tenant without an owner, transactions that already hold locks included |
| `OwnerSafety.OwnerForeverExactly` | crates/backend-postgres/src/users.rs:199-207 | from every state, all runs keep an owner if and only if the owner role is a system role, no transaction that saw no owner role can still take an owner away, and none that saw it is about to write on a stale reading |
| `OwnerSafety.GuardedRun` | crates/backend-postgres/src/users.rs:345-468 | every run keeps what transactions have read about the owners true until they write |
| `OwnerSafety.BlindIsUnchecked` | crates/backend-postgres/src/users.rs:355-392 | in any company a transaction that found no owner role writes without any later check |
| `OwnerSafety.ThreatLosesOwners` | crates/backend-postgres/src/users.rs:355-392 | from any state with such a transaction in flight some run leaves the tenant without an owner |
| `OwnerSafety.StaleLosesOwners` | crates/backend-postgres/src/users.rs:374-392 | from any state with a transaction about to write on a stale reading some run leaves the tenant without an owner |
| `OwnerRaces.SeedingCreatesThreat` | crates/backend-postgres/src/bootstrap.rs:59-117 | a run from an empty system leads to a tenant's only owner beside a deletion that can take the owner away unchecked |
| `OwnerRaces.CountGoesStale` | crates/backend-postgres/src/users.rs:345-398 | a run from an empty system in which one deletion counts two owners, an unchecked one deletes the other, and the first then takes the last owner away |
| `OwnerSafety.RenameLosesOwners` | crates/backend-postgres/src/roles.rs:165-184 | from any state an owner role that is not a system role can be renamed away |
| `AccessVersions.VersionStep` | crates/backend-postgres/src/roles.rs:186-199 | no step lowers a version, and a step that changes a user's permissions or password raises it |
| `AccessVersions.Trace` | crates/backend-postgres/src/users.rs:161-197 | along every run user numbers are not reused and versions track access at each step |
| `AccessVersions.VersionsTrackAccess` | crates/backend-postgres/src/users.rs:161-197 | between any two states of a surviving user, a change of permissions or password at any step in between makes the version strictly larger |
| `Shadows.MergeJson` | crates/backend-core/src/shadows.rs:168-181 | the loop removes the keys a patch gives as null, sets its others and keeps all other keys |
| `Shadows.CompareJson` | crates/backend-core/src/shadows.rs:143-163 | the loop collects exactly the desired keys that are not reported with the desired value |
| `Shadows.ApplyDesiredPatch` | crates/backend-core/src/shadows.rs:37-50 | key by key merged desired side, same reported side, delta to match, next version; refused exactly at the last version |
| `Shadows.ApplyReportedPatch` | crates/backend-core/src/shadows.rs:52-65 | key by key merged reported side, same desired side, delta to match, next version; refused exactly at the last version |
| `Shadows.ApplyReset` | crates/backend-core/src/shadows.rs:67-78 | both sides and the delta are emptied and the version still rises; refused exactly at the last version |
| `Shadows.MergesCombine` | crates/backend-core/src/shadows.rs:168-181 | two merges in a row are one merge by the patch in which the later entries win |
| `Shadows.ReportingBackSettles` | crates/backend-core/src/shadows.rs:143-181 | reporting the delta back empties it if and only if the delta holds no null |
| `Shadows.NothingMissing` | crates/backend-core/src/shadows.rs:143-163 | the delta is empty if and only if every desired key is reported with its value |
| `Shadows.RunIsOneMerge` | crates/backend-core/src/shadows.rs:37-78 | in every run the delta is right, no nulls appear, the version counts the changes and each side is one merge of the patches since the last reset |
| `Shadows.ExhaustedRowIsFrozen` | crates/backend-core/src/shadows.rs:31-35 | at the largest version every change is refused for good |
| `Shadows.DeviceConverges` | crates/backend-core/src/shadows.rs:52-65 | after every run a device that reports the delta it was sent leaves none |
| `Ota.TerminalStatuses` | crates/backend-core/src/firmware.rs:175-177 | ignoring case makes no difference to statuses that have a rank |
| `Ota.AllowedTransitions` | crates/backend-core/src/firmware.rs:16-30 | a deployment under way moves to its own or a later state or is finished; a finished one does not move |
| `Ota.DeviceRepository.SetDesired` | crates/backend-core/src/application/shadows.rs:31-48 | a patch of the reserved key is refused; otherwise it is stored if and only if the shadow exists and its version has room: merged key by key, one version newer, with its delta, the command as it was; nothing else changes |
| `Ota.DeviceRepository.SetReported` | crates/backend-postgres/src/shadows.rs:63-82 | stored if and only if the shadow exists and its version has room: merged key by key into the reported side, one version newer, with its delta; other shadows stay |
| `Ota.DeviceRepository.Reset` | crates/backend-postgres/src/shadows.rs:63-82 | the shadow is empty, without a command and one version newer, or nothing changes; other shadows stay |
| `Ota.DeviceRepository.TriggerOta` | crates/backend-postgres/src/firmware.rs:447-528 | says for each outcome exactly when it is given; a started deployment is a new pending row, commanded with the version, link and hash of the firmware, the unfinished rows of the device have failed and all else is as it was; or no row and no shadow changes |
| `Ota.TriggeredExactly` | crates/backend-postgres/src/firmware.rs:447-528 | a deployment starts if and only if device and firmware are known, the assigned revision is that of the firmware, the artifact is usable and the counters have room |
| `Ota.TriggerMeaning` | crates/backend-postgres/src/firmware.rs:447-528 | what a started deployment writes, row by row and key by key |
| `Ota.ProvisionedDeviceIsReady` | crates/backend-postgres/src/firmware.rs:447-528 | a device that was registered, assigned a revision and has usable firmware of it can be deployed to |
| `Ota.DeviceRepository.ReportStatus` | crates/backend-postgres/src/firmware.rs:344-403 | stored if and only if it is for a row of the device and its firmware and goes forward; only that row moves, the command is removed exactly when it names the finished row, and a refusal changes nothing |
| `Ota.ReportMeaning` | crates/backend-postgres/src/firmware.rs:344-403 | which answer a report gets, and what it changes in the row and in the shadow |
| `Ota.DeviceRepository.RemoveFirmware` | crates/backend-postgres/src/firmware.rs:317-342 | nothing deploys or refers to the firmware afterwards; every other deployment and every shadow stays as it is |
| `OtaRuns.InvRun` | crates/backend-postgres/src/firmware.rs:344-528 | every run, with uploads, registrations, contract changes and firmware deletions, keeps live rows newest, shadows consistent and commands naming their deployment |
| `OtaRuns.ReachableOk` | crates/backend-postgres/src/devices.rs:286-301 | every state reachable from an empty system meets the invariant |
| `OtaRuns.OneLiveDeployment` | crates/backend-postgres/src/firmware.rs:494-513 | in every run a device has at most one live deployment and it is the newest |
| `OtaRuns.CommandNamesLiveDeployment` | crates/backend-core/src/shadows.rs:217-228 | in every run a command names the device's live deployment exactly when the named row still exists |
| `OtaRuns.OrphanedOnlyByRemoval` | crates/backend-postgres/src/firmware.rs:317-342 | a step takes the row of a standing command away if and only if it deletes that row's firmware |
| `OtaRuns.DeletionOrphans` | crates/backend-postgres/src/firmware.rs:317-342 | deleting the firmware of a deployment that was just triggered leaves its command without a row |
| `OtaRuns.OrphanStays` | crates/backend-postgres/src/firmware.rs:344-403 | through every run without a new deployment or a reset for the device, a command whose row was deleted stands |
| `OtaRuns.ReportClearsOnlyItsOwnCommand` | crates/backend-core/src/shadows.rs:217-228 | a report changes a shadow if and only if it finishes the deployment the command names, and then only that shadow |
| `OtaRuns.DeploymentsOnlyMoveForward` | crates/backend-core/src/firmware.rs:16-30 | through every run ranks never fall, finished rows never change and numbers are not reused |
| `OtaRuns.TriggerCommands` | crates/backend-core/src/firmware.rs:361-376 | a successful trigger leaves the device commanded to carry out exactly the new deployment |
| `OtaRuns.SupersededReportsAreIgnored` | crates/backend-postgres/src/firmware.rs:344-403 | once a device has a newer deployment, reports about older ones change nothing in any later state |
| `Blueprints.BlueprintRepository.Add` | crates/backend-postgres/src/device_blueprints.rs:192-242 | blueprint and draft appear together if and only if both ids and the key are unused, with the content given; otherwise nothing changes; keys stay unique |
| `Blueprints.BlueprintRepository.SetDraft` | crates/backend-postgres/src/device_blueprints.rs:266-308 | an existing blueprint gets the document and key if and only if no other one of the tenant has the key; no other blueprint and no revision changes |
| `Blueprints.BlueprintRepository.FindLatest` | crates/backend-postgres/src/device_blueprints.rs:389-395 | the scan returns a row of the blueprint with the largest number, or nothing when there is none |
| `Blueprints.LatestIsLargest` | crates/backend-postgres/src/device_blueprints.rs:389-395 | of arbitrary rows the latest has the largest number of the blueprint |
| `Blueprints.BlueprintRepository.PublishDraft` | crates/backend-postgres/src/device_blueprints.rs:355-447 | writes if and only if the draft is as read, its content is not that of the latest revision, that revision is the expected predecessor and the new id, number and hash fit; a published revision holds the draft and is the latest |
| `Blueprints.PublishedExactly` | crates/backend-postgres/src/device_blueprints.rs:355-447 | a publication that fits is written under the next number and no other one is; each refusal said exactly |
| `BlueprintRuns.InvRun` | crates/backend-postgres/src/device_blueprints.rs:355-447 | every run keeps unique ids and a well-formed chain for every blueprint |
| `BlueprintRuns.RevisionsFormAChain` | crates/backend-postgres/src/device_blueprints.rs:395-420 | in every run revisions are numbered from one without gaps, each published against its immediate predecessor, neighbours differing in hash or document |
| `BlueprintRuns.RevisionsAreImmutable` | crates/backend-postgres/src/device_blueprints.rs:420-437 | no step changes or removes a revision |
| `BlueprintRuns.WrittenRevisionsAreUpToDate` | crates/backend-core/src/application/device_blueprints.rs:178-232 | whatever happens between the two unlocked reads and before the write, a stored revision holds the current draft and a comparison with its real predecessor |
| `BlueprintRuns.OvertakenPublisherNeverWrites` | crates/backend-postgres/src/device_blueprints.rs:402-404 | a request overtaken by another publication never writes, in any later state |
| `BlueprintRuns.PublishedIsLatest` | crates/backend-postgres/src/device_blueprints.rs:355-447 | a successful publication leaves its revision the latest with the requested content and the draft unchanged |
| `BlueprintRuns.RetryReturnsTheSameRevision` | crates/backend-postgres/src/device_blueprints.rs:395-401 | a retry on an unchanged draft and latest revision returns the first attempt's revision and writes nothing |

## Left out

- Floating-point rounding: sums and averages are exact rationals.
- Order and limit of the rows an analytics query returns, and device names: buckets are a map from device and time to figures; the fleet filter is a set of device ids.
- Columns that decide nothing: error texts, payloads, `updated_at` of outbox rows, severity and message of alerts, descriptions, login times, the users' display role.
- Device and tenant deletion with their cascades, apart from the loss of the rule reference of an alert.
- The rule engine that enqueues actions, what webhooks and commands do, and the encoding of payloads: the action stored with an event is an arbitrary function of its id.
- The SQLite-based adapters, apart from their bucket labels.
- Database collations other than binary order for the tie-break on ids.
- Lock waits and deadlocks: a statement whose lock is taken does not run; user creation, role changes and seeding run in one step once their locks are free.
- OutboxRuns.NoRowIsStuck: assumes times within the calendar type's range, outside of which the lease cutoff is clamped.
- OutboxRuns.ClaimsAreALeaseApart: a lock from the calendar's first moment has no lease, because cutoffs are clamped there; a lease is counted in 64-bit microseconds.
- OutboxRuns.WaitingIsBounded: assumes that no work is added, because new work of other tenants may come before a row for as long as it keeps coming.
- AccessVersions.VersionsTrackAccess: versions are unbounded; the database refuses a version beyond 32 bits.
- Ota.DeviceRepository.TriggerOta: string lengths are counted in characters, so the limits of 63 and 1023 bytes are exact for ASCII text only.
- Blueprint validation, document hashing and the comparison of documents: the hash and the comparison are arbitrary functions.
- Fleets, zones, audit, activity, dashboards, logs, API keys, certificates and CI ingest: listing and simple updates with easy properties.
- The permission catalogue, the HTTP layer, the command line, the web frontend and the mobile app.

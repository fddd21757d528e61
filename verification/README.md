# Charging sessions, verified

A Dafny model of the OCPP 1.6 central system: how charging sessions are started, stopped, metered,
billed, swept up and migrated, and the smaller machines beside them - the power balancer, the
capability cache, the correlation of requests with answers, the measurand list and the
consumed-energy gauges.

Check it with `dafny verify dfyconfig.toml`.

## How the model is laid out

- `Domain`, `Billing`, `Persistence`: the entities, the tariff, and the database as a class whose
  operations can each fail and whose history of durable states is a ghost field, so that a crash
  after any write is one of those states.
- `Sessions` says what each handler does to database and memory; `Handler` is the system handler as
  a class, each method proved to do exactly that; `Loading` says what start-up and first use load.
- `Lifecycle` is the state machine. Handlers that run under the handler lock are one step.
  Meter values do not take the lock: their reads and each of their writes are steps of their own.
  Closing an abandoned session is not atomic either: selecting, working out the figures, writing the row,
  the locked release and deleting the samples are five steps, and any number of sweeps may be in
  flight, of the same transaction too. Any step may crash after any of its writes.
- `Pointers`, `Safety`, `Strands`, `Starts`, `Stops`, `Recovery`, `Ledger`, `Meters`: what all runs of that
  machine keep; `Readings`: where meter values are filed. `Hazards`: runs in which a property fails; each drops one condition that those theorems
  put on a step (the one for a lost row is `Starts.LostRowRefusesStart`).
- `Selection`, `SweepPass`: the aggregation that selects abandoned sessions, and a serial sweep.
- `Migration`: the stuck-transaction migration and its rollback.
- `LoadBalancer`, `Capabilities`, `Correlation`, `Measurands`, `ConsumedEnergy`: the other machines.

Inputs the model takes as parameters: the clock, the order in which a cursor yields documents, which
operations fail, when the process dies, the request ids (assumed unique), and what charge points
answer.

## What does not hold without a condition

Each of these is stated with the exact condition, or with a concrete run.

- Soundness of pointers is proved where new rows and connectors can be written and restarts can read; closing
  and sample writes, and every other read, may fail. A release or a stop whose connector write fails leaves the
  stored pointer on a finished row (`Hazards.FailedReleaseStrands`, `Hazards.FailedStopStrands`; exactly when:
  `Strands.ReleaseSoundExactly`, `Strands.StopSoundExactly`).
- A restart that cannot read the highest transaction id begins again at 1, although every row is stored; the next
  session is accepted under the id of one that exists, and two connectors can hold the same session
  (`Pointers.RestartAnchoredExactly`, a run: `Hazards.UnreadRestartShares`).
- A stop sent by a charge point that does not own the transaction strands the owner's pointer on a
  finished transaction (`Strands.StopSoundExactly`, a run: `Hazards.ForeignStopStrands`).
- A sweep that could not write its row frees the connector of a session that is still open
  (`Safety.ReleaseOneOpenExactly`, a run: `Hazards.FailedCloseExposes`); a later sweep closes it
  (`Recovery.FailedCloseIsSwept`).
- A stop that names a superseded session releases a connector that has moved on to another one,
  because the release in a stop does not compare ids (`Safety.StopOneOpenExactly`, a run:
  `Hazards.LateStopDisplaces`).
- A start interrupted between its two writes, and only there, leaves an open transaction no connector
  holds (`Safety.StartStatesExactly`, a run: `Hazards.StartDiesHalfway`); the sweep closes it later.
- A start whose row is not stored is still accepted. After a restart its id is given out again, and
  its connector is refused with ConcurrentTx (`Starts.LostRowRefusesStart`).
- A start that would insert its row under an id that is taken points at that row
  (`Starts.StartHealsExactly`); runs that store their new rows and whose restarts read the highest id never
  come to it.
- The stored meter stop can fall. A sweep writes the figure it worked out over a higher one that a stop stored
  meanwhile (`Hazards.OvertakenLosesFigure`), and a stop is compared by the figure it reports but stores that of
  its last Transaction.End sample (`Hazards.AmendedStopLosesFigure`); exactly when: `Meters.AdvanceMeterExactly`.
- A sweep that has to create a missing connector document makes another open session of that
  connector look moved on, so a second pass at the same time is not always empty
  (`SweepPass.SweepEffect` says exactly when, `Hazards.SweepReveals` is a run). Connectors only go
  missing when they could not be written, or are deleted from outside.
- Passes of the balancer share a slot when they offer one and queue more than one profile
  (`LoadBalancer.PassInjectiveExactly`).
- A database whose pointers name open, recent rows of other connectors, or no row, is not mended by
  the migration (`Migration.MendsExactly`).
- The handler and the balancer write the same connector document. A write-back of the handler's copy
  erases the limit, and two running sessions can end up on one slot
  (`LoadBalancer.WriteBacksShareSlot`).
- The comment above the answer channel's send says that a caller that has given up cannot wedge the
  read pump. A second answer to the same request can (`Correlation.LateDuplicateBlocks`,
  `Correlation.BlockedForeverExactly`).
- Required measurand names with a comma in them are appended again on every merge
  (`Measurands.MergeAgainExactly`).
- The backlog migration closes rows without billing them, so the ledger property exempts rows with
  its reasons; its rollback also reopens rows that carried such a reason before
  (`Migration.DownReopensExactly`).

## Model

| member | source | states |
|---|---|---|
| `Billing.Affleck.OnTransactionFinished` | billing/affleck.go:41-67 | billing a closed document changes its payment and nothing else, and only if it has a plan: to the price of the time and energy between its start and its end |
| `Billing.Affleck.OnMeterValue` | billing/affleck.go:71-96 | the price filed with a reading is that of the time and energy from the start of the session to the reading |
| `Billing.Affleck.ChoosePaymentPlan` | billing/affleck.go:98-121 | user plan if it applies, else the default plan as it was first read, no plan without a username |
| `Billing.MinutesPastFreeHour` | billing/affleck.go:51-59 | the fractional-minute computation cut down to whole minutes is integer division of the elapsed nanoseconds past the free hour |
| `Billing.PriceExactly` | billing/affleck.go:41-67 | the price is that of the time plus that of the energy; the first hour and a meter that did not advance cost nothing, n kilowatt-hours cost n times their rate and k whole hours past the first k times theirs, and any other amount, in whole minutes and watt-hours, is cut by less than a cent |
| `Billing.PriceMonotone` | billing/affleck.go:41-67 | with rates that are not negative a session never gets cheaper as time and energy grow, and never costs less than zero |
| `Persistence.Database.UpdateTransaction` | internal/mongo.go:919-934 | an update of one document: the new state, one durable state more, and nothing at all on failure or for a missing document |
| `Persistence.Database.UpdateConnector` | internal/mongo.go:443-467 | the same for a connector document; it writes pointer and power limit together |
| `Persistence.Database.AddTransactionMeterValue` | internal/mongo.go:936-953 | the sample is upserted under its transaction and minute |
| `Persistence.UpsertKeyed` | internal/mongo.go:936-953 | an upsert keeps one sample a minute, stores the new sample, and keeps exactly the old samples of the other minutes |
| `Persistence.NewestUnique` | internal/mongo.go:973-989 | "the last sample by time" names one document, in whatever order the collection is read |
| `Persistence.LastIdUnique` | internal/mongo.go:701-720 | so does the highest transaction id |
| `Handler.SystemHandler.OnStart` | server/system_handler.go:253-348 | memory and database after start-up are those of the specification, over every cursor order and every fault |
| `Handler.SystemHandler.OnStartTransaction` | server/system_handler.go:604-750 | reply, memory and the whole history of database states are those of the specification `Sessions.StartTransaction` |
| `Handler.SystemHandler.OnStopTransaction` | server/system_handler.go:752-933 | the same for a stop: find, close, bill, save, delete samples, release, with every write able to fail |
| `Handler.SystemHandler.ApplyTransactionData` | server/system_handler.go:855-871 | boundary values of a stop override the figures, the last of a kind winning |
| `Handler.SystemHandler.OnMeterValues` | server/system_handler.go:935-1056 | readings are filed under the named transaction or the one the connector holds |
| `Handler.SystemHandler.OnStatusNotification` | server/system_handler.go:1084-1188 | a status message never changes which transaction a connector holds |
| `Handler.SystemHandler.FinishAbandonedTransaction` | server/system_handler.go:1619-1703 | read newest sample, write the closed row, release under the lock, delete samples, in that order |
| `Handler.SystemHandler.ReleaseConnector` | server/system_handler.go:1665-1699 | the locked release |
| `Handler.SystemHandler.CheckAndFinishTransactions` | server/system_handler.go:1514-1533 | one sweep closes, in turn, a selection of the abandoned transactions, each with its own failing operations; a selection that cannot be read closes nothing |
| `Handler.SystemHandler.ReconcileChargePointTransactions` | server/system_handler.go:1588-1608 | a reboot closes the open transactions of the charge point but those with a readable, recent newest sample; each close may fail in its own way |
| `Handler.GetUnfinishedTransactions` | internal/mongo.go:783-905 | the selection read from the three collections is exactly the abandoned transactions |
| `Loading.LoadConnectorsExactly` | server/system_handler.go:326-383 | start-up loads every listed connector, cleared if it points at a finished transaction; the same clearing reaches the database; nothing else changes, in any order |
| `Loading.GetChargePointExactly` | server/system_handler.go:388-461 | which charge points a message may come from, and what looking one up changes |
| `Loading.LocateExactly` | server/system_handler.go:411-461 | memory and database agree on the pointer a handler finds, and no other pointer changes |
| `Loading.StatusExactly` | server/system_handler.go:1084-1188 | a status message writes the connector back with the pointer it is found to hold; one about connector zero, or from an unknown charge point, creates no connector; rows and samples stay |
| `Pointers.RunAnchored` | server/system_handler.go:604-1763 | in every run whose starts store their rows and whose restarts read the highest id - any other read, connector writes, closing writes and sample writes failing, and a crash after any write - every pinned connector names an existing transaction of exactly that connector, below the next id |
| `Pointers.RestartAnchoredExactly` | server/system_handler.go:283-290 | a restart keeps that if and only if it can read the highest id, or no transaction is stored |
| `Starts.StartGoodExactly` | server/system_handler.go:604-731 | a start that can read keeps it if and only if its new row is stored or it needs none |
| `Strands.StopSoundExactly` | server/system_handler.go:752-933 | whatever fails in it, a stop keeps pointers sound if and only if it is harmless - it names no stored row, comes from the owning charge point, or the row is not held or about to be released - or cannot read or write the row, and can write the connector or has nothing to free |
| `Safety.RunSound` | server/system_handler.go:604-1763 | in every interleaving of starts, own stops, meter values, sweep micro-steps, crashes and restarts, with closing writes, sample writes and every read of a running handler or sweep failing at will, a pinned transaction is open unless some sweep has tried to close it and not yet released it; required are working writes of new rows and of connectors, and restarts that can read |
| `Safety.SoundMeans` | server/system_handler.go:354-361 | so no two connectors share a transaction and, with no sweep in flight, none points at a finished one |
| `Safety.ReleaseSparesOthers` | server/system_handler.go:1657-1684 | over the same runs, whether or not the sweep could read the newest sample or write the row, and with several sweeps of one transaction, the locked release takes it off every connector and frees none that has moved on to another open session |
| `Strands.ReleaseSoundExactly` | server/system_handler.go:1657-1763 | the locked release keeps pointers sound if and only if the connector can be written or there was nothing to release, also when it loads or has to create the connector |
| `Hazards.FailedReleaseStrands` | server/system_handler.go:1755-1762 | a run in which the release's connector write fails: the stored connector is left on the finished row with no sweep in flight |
| `Hazards.FailedStopStrands` | server/system_handler.go:821-830 | a run in which the connector write of a session's own stop fails, with the same outcome |
| `Hazards.ForeignStopStrands` | server/system_handler.go:813-830 | a run in which a charge point that does not own the session stops it, and the owner's pointer is left on the finished row |
| `Hazards.UnreadRestartShares` | server/system_handler.go:283-290 | a run that stores every row and never fails to write, with one restart that cannot read the highest id: two connectors end up holding the same session, and the next start on the second is refused with ConcurrentTx |
| `Safety.AtMostOneOpen` | server/system_handler.go:620-665 | if every open transaction is held by its connector, a connector has at most one |
| `Safety.StopOneOpenExactly` | server/system_handler.go:824-830 | a stop keeps every open transaction held, in all its database states, if and only if it frees no connector from a session it leaves open: another session, as the release in a stop does not compare ids, or its own when the row cannot be written |
| `Hazards.LateStopDisplaces` | server/system_handler.go:832-848 | a run in which a repeated stop of a finished session frees the connector of the next, open one |
| `Safety.StartStatesExactly` | server/system_handler.go:620-731 | of all states a start passes through, exactly the one between its two writes shows an open transaction nobody holds |
| `Hazards.StartDiesHalfway` | server/system_handler.go:722-727 | a run in which the process dies there |
| `Safety.ReleaseOneOpenExactly` | server/system_handler.go:1657-1684 | the release of a sweep keeps every open transaction held if and only if the row it swept is finished |
| `Hazards.FailedCloseExposes` | server/system_handler.go:1657-1684 | a run in which the sweep could not write the row, and its release leaves the open session held by no connector |
| `Safety.RunSingle` | server/system_handler.go:604-1763 | over runs without a stop or a release that frees a connector from an open session, or a crash in that one state, every open transaction is held by its connector at every handler boundary; closing writes and the reads of handlers and sweeps may fail |
| `Starts.StartReplyExactly` | server/system_handler.go:604-665 | from any state, however corrupt: a start on a known charge point with readable documents is refused if and only if the connector is found holding an open transaction of another connector number |
| `Starts.BlockedExactly` | server/system_handler.go:604-618 | a start that can read is turned away unanswered, and changes nothing, if and only if its charge point is neither in memory nor stored, and unknown ones are not accepted or it has no name |
| `Starts.StartStoresRequest` | server/system_handler.go:676-731 | a start answered with an id no row had, whose row is stored, has stored the place, meter start, time and plan of the request, open and unbilled, pinned the connector to it with no power limit, and touched no other row or sample |
| `Starts.StartHealsExactly` | server/system_handler.go:636-731 | after an accepted start the connector holds the answered transaction, whatever the pointer was before; it is stored, open and of that connector number if and only if no other row stands under a new id |
| `Starts.RetriedStart` | server/system_handler.go:631-634 | a repeated StartTransaction (section 4.8 of OCPP 1.6 edition 2) is given the same id and writes nothing, if and only if the first one healed |
| `Starts.StartAlwaysAccepted` | server/system_handler.go:604-750 | after every run whose starts store their rows and whose restarts read the highest id, a start on a known charge point that can read is accepted: with the open transaction of exactly that connector, or a new one under an unused id |
| `Starts.LostRowRefusesStart` | server/system_handler.go:685-731 | without the first condition: a row that was not stored and a restart give the same id out twice, and the first connector is refused with ConcurrentTx |
| `Selection.JoinExactly` | internal/mongo.go:790-840 | the lookups and the unwind give one row per open transaction, with its connector and newest sample |
| `Selection.PipelineRefines` | internal/mongo.go:783-905 | the aggregation returns each abandoned transaction once, and no other, with its true last activity and cause |
| `Selection.NeverTakenUpEarly` | internal/mongo.go:854-866 | nothing with a start or sample within two minutes is ever selected, and a missing connector only by the twenty-minute rule |
| `Selection.SelectedExactly` | internal/mongo.go:783-905 | by the documents: an open row is selected if and only if its start and all its samples are twenty minutes old, or two when its stored connector holds another transaction or none; the cause tells the two apart, and the last activity is the latest of those times |
| `SweepPass.SweepEffect` | server/system_handler.go:1514-1533 | a serial sweep closes exactly the abandoned transactions and frees exactly the connectors that held them; other rows, samples, connectors with their limits, charge points and memory stay, but for missing connectors of closed rows; a second pass at the same time would select exactly the sessions revealed by those |
| `SweepPass.SweepClosesExactly` | server/system_handler.go:1514-1533 | row by row, in one serial pass: a row of that kind is closed, loses its samples and is held by no connector; every other keeps row, samples and the connectors that hold it |
| `SweepPass.FinishRowsExactly` | server/system_handler.go:1619-1703 | one close, whatever fails in it: the row ends at its newest sample, charged, or, when there is none or it cannot be read, where it started, unless it cannot be written; the samples are deleted either way; no other row or sample changes |
| `SweepPass.PassSpares` | server/system_handler.go:1514-1533 | whatever fails in a pass, it touches no row and no samples but those it was given |
| `Hazards.SweepReveals` | server/system_handler.go:1747-1763 | a run, with two failed connector writes, that leads to a sweep which reveals another open session |
| `SweepPass.SweepSettles` | server/system_handler.go:1514-1533 | where the connectors of all open transactions are stored the second pass selects nothing, and what stays open reported within twenty minutes, or two if its connector moved on |
| `SweepPass.ReconcileEffect` | server/system_handler.go:1588-1608 | the reboot reconcile closes every open transaction of the charge point but those with a sample within the grace period, and nothing of any other |
| `SweepPass.ReconcileClosesExactly` | server/system_handler.go:1588-1608 | row by row: the open rows of the charge point without a sample of the last two minutes are closed; every other row, a session that still reports among them, keeps row, samples and the connectors that hold it |
| `SweepPass.ReconcileSpares` | server/system_handler.go:1588-1608 | also when operations fail, a session with a readable sample of the last two minutes, a closed row, and the rows of other charge points keep row and samples |
| `Stops.StopClosesExactly` | server/system_handler.go:832-902 | a stop that reads its row leaves it and its samples alone if it is finished with at least the reported figure or cannot be written; else it closes it with the reported reason, time and figure, the last Transaction.Begin and Transaction.End values over them, charged by its plan, and deletes its samples; no other row or sample changes |
| `Stops.StopNeverExposes` | server/system_handler.go:821-902 | whatever else fails, no database state inside a stop shows its transaction open and its connector released unless the transaction write failed |
| `Stops.FailedStopFrees` | server/system_handler.go:888-902 | if it failed, row and samples stay and the connector is freed all the same |
| `Recovery.RunShed` | server/system_handler.go:604-1763 | a session no connector holds is never taken up again, in memory or database, over any run whose restarts can read the highest id, with any other failures, lost rows among them, and crashes |
| `Recovery.RestartShedExactly` | server/system_handler.go:283-290 | a restart keeps that if and only if it can read the highest id |
| `Recovery.FailedStopIsSwept` | server/system_handler.go:900-902 | after a stop whose transaction write failed, at any later moment of any run whose restarts can read the highest id: while the row is open a sweep selects it if and only if it was quiet for the grace period, and then closes it |
| `Recovery.FailedCloseIsSwept` | server/system_handler.go:1657-1684 | the same, over the same runs, after the release - with a stored connector that can be written - of a sweep whose transaction write failed |
| `Stops.StopUndoesStart` | server/system_handler.go:604-933 | a start and the stop naming its transaction leave the connector free in memory and database, the row closed with the time and meter figures of the two requests and charged for what lies between them, and the next id unused |
| `Ledger.AdvanceRows` | server/system_handler.go:604-1763 | whatever fails and wherever the process dies, a step changes no row but the one a stop or a sweep writes, and adds none but a blank one |
| `Ledger.NeverReopened` | server/system_handler.go:832-853 | once finished, a transaction is never reopened, in any run whatever: any faults, lost rows, restarts that cannot read, starts under taken ids, crashes |
| `Ledger.RunSettled` | server/system_handler.go:832-898 | over every run, any faults, stops in any order, overwriting or overwritten by sweeps: a finished row carries the tariff of its stored plan, times and meter figures, rows of the backlog migration excepted |
| `Ledger.SweepFiguresSettled` | server/system_handler.go:1622-1655 | also when the sweep closes it, with or without a sample |
| `Readings.MeterValuesExactly` | server/system_handler.go:935-1052 | readings that can be saved are filed under the stored transaction the message names, if it names one, else under the one its connector, not number zero, is found to hold, else nowhere; each reading of some energy but the earlier of two in a minute becomes a sample with its time, value and running price, the samples of other minutes stay, and no other transaction's change |
| `Readings.MinuteExactly` | internal/mongo.go:936-953 | the minute a sample is filed under, in nanoseconds |
| `Meters.RunPriced` | server/system_handler.go:1030-1050 | over every run, any faults, the samples of an open transaction carry its running price |
| `Meters.CopiesStayTrue` | server/system_handler.go:970-1050 | the copy of a row that meter values were read against stays good for pricing, whatever starts, stops, sweeps and crashes come before they are written |
| `Meters.SystemStopPrice` | server/system_handler.go:1626-1659 | whatever runs between working out the figures and writing them, the stored row of a session closed by the system is charged the running price its newest sample had |
| `Meters.AdvanceMeterExactly` | server/system_handler.go:832-871 | one step, whatever fails in it, leaves the higher of the stored meter stop and the figure it reports if and only if the figure of a stop that lets the row stand is no higher than the stored one, and the figure a stop or a sweep writes no lower |
| `Meters.PlainKeepsHighest` | server/system_handler.go:832-853 | so a stop whose Transaction.End sample, if any, agrees with the figure it reports always does, and a sweep does whose row is open, or finished with no higher figure, when it writes |
| `Meters.MeterStopIsHighest` | server/system_handler.go:832-871 | over every run of such steps, with any failing writes and crashes, a transaction is finished exactly when it was before or something was reported, and its meter stop is the highest of all figures reported by stops, late, early or repeated, and by sweeps |
| `Hazards.OvertakenLosesFigure` | server/system_handler.go:1657-1659 | a run in which a stop reports 5 between a sweep's figures and its write, and the stored meter stop ends at 0 |
| `Hazards.AmendedStopLosesFigure` | server/system_handler.go:832-871 | a run in which a second stop is let through by the 7 it reports and files the 3 of its Transaction.End sample over the stored 5 |
| `Migration.UpEstablishes` | internal/migrations.go:263-440 | on any database: no connector points at a finished transaction; each open one started at or after the cutoff, carries a payment, or has a sample after it; payments, samples and finished rows are untouched |
| `Migration.UpClosesExactly` | internal/migrations.go:263-440 | a row stays as it is if and only if it was finished, started at or after the cutoff, carries a payment, or has a sample after it; any other is closed at its newest sample or, without one, where it started, unpaid; and exactly the connectors that then point at a finished row are freed |
| `Migration.UpTwice` | internal/migrations.go:263-440 | rerun with the same cutoff it changes nothing |
| `Migration.MigrationStuckTransactionsUp` | internal/migrations.go:263-385 | if no operation fails the loops end in that database; after a failing operation or a crash at any write, a rerun still does |
| `Migration.ReleaseOrphanedConnectors` | internal/migrations.go:387-440 | the second pass frees exactly the connectors that point at finished transactions |
| `Migration.DownReopensExactly` | internal/migrations.go:446-464 | the rollback restores which rows are finished if and only if no finished row had a backlog reason before |
| `Migration.RollbackExactly` | internal/migrations.go:446-464 | after migration and rollback a row that was alive is as before unless it had a backlog reason, and one the migration closed is open again, without reason or end; its meter stop stays |
| `Migration.MendsExactly` | internal/migrations.go:263-440 | migrated pointers are anchored if and only if rows are keyed and positive and every pointer names a row that is its own connector's, finished, or stuck, and none that stays belongs to an unknown charge point |
| `Migration.MigratedStartsSound` | internal/migrations.go:263-440 | the process that starts on a migrated database begins in a state the runtime then keeps sound if and only if the database was of that kind |
| `Migration.MigratedRunsSettled` | internal/migrations.go:330-345 | on a migrated database the payment property holds over every run |
| `Migration.RunMigrations` | internal/mongo.go:1427-1460 | pending migrations run in order and the version is stored after each; the first failure of either stops, and running again ends in the same database |
| `LoadBalancer.Balancer.CheckPowerLimit` | power/load_balancer.go:290-352 | the nested loops leave the location, and send the profiles, that the specification of a pass says |
| `LoadBalancer.FirstFreeExactly` | power/load_balancer.go:329-335 | the first slot in order that is not in use, or the base limit when all are |
| `LoadBalancer.OfferExactly` | power/load_balancer.go:38-40 | so the offer is the highest slot no session uses |
| `LoadBalancer.OfferedExactly` | power/load_balancer.go:290-335 | by the connectors: no running session of a smart connector draws the offered slot, and each higher one is drawn by some |
| `LoadBalancer.PassExactly` | power/load_balancer.go:290-352 | connector by connector: a running session keeps its limit or is given the offer if its profile was queued, an idle smart connector loses its limit, and nothing else changes |
| `LoadBalancer.PassInjectiveExactly` | power/load_balancer.go:290-352 | an undisturbed pass keeps slots unshared if and only if it has only the base limit to offer or queues at most one profile |
| `LoadBalancer.UndisturbedPass` | power/load_balancer.go:290-352 | read and written without interruption, the steps of a pass do what the specification of a pass says |
| `LoadBalancer.RunSeparated` | power/load_balancer.go:290-352 | over every run, with sessions and write-backs between a pass's read and each of its writes, two sessions hold the same slot above base only if one pass gave it to both |
| `LoadBalancer.WriteInjectiveExactly` | power/load_balancer.go:338-351 | a single write makes two sessions share a slot if and only if it hands it to a running session while another one of the same pass still holds it |
| `LoadBalancer.RunInjective` | power/load_balancer.go:38-40 | when each pass has only the base limit to offer or reads at most one limitless session, slots are injective and n sessions draw at most 785 + 85 * max(0, n - 4) ampere |
| `LoadBalancer.LimitKeptExactly` | power/load_balancer.go:338-351 | one event changes the limit of a limited session if and only if the session begins anew, ends, or the handler writes the connector back; a pass that read it earlier does not |
| `LoadBalancer.LimitKept` | power/load_balancer.go:338-351 | so over runs without those events it keeps its limit and its transaction |
| `LoadBalancer.QuietPass` | power/load_balancer.go:338-351 | a pass that meets no limitless session sends nothing and leaves every session as it is |
| `LoadBalancer.WriteBacksShareSlot` | internal/mongo.go:443-467 | UpdateConnector writes the limit as well: a handler's stale copy makes two running sessions share a slot |
| `Capabilities.CapabilityStore.Record` | power/capabilities.go:96-105 | a reported configuration replaces the entry but never raises a ceiling already learned |
| `Capabilities.CapabilityStore.BeginDiscovery` | power/capabilities.go:112-125 | a read is granted if the configuration is unknown and was not asked for within the retry interval, and the attempt is recorded |
| `Capabilities.CapabilityStore.LowerStackLevel` | power/capabilities.go:129-144 | a refusal lowers the ceiling, or reports that nothing was learned |
| `Capabilities.ParsedIsComplete` | power/capabilities.go:148-184 | every usable configuration answer settles the level and ends discovery; an answer is unusable exactly when its level is not a number |
| `Capabilities.ParsedExactly` | power/capabilities.go:148-184 | a usable answer tells what its last key of each kind says, and ten levels and ampere without one |
| `Capabilities.RunSane` | power/load_balancer.go:212-256 | over every interleaving of reads, verdicts, retries and assignments, a retry reading the store apart from the verdict that caused it: learned ceilings never rise, an assignment sends at most two profiles for one transaction at strictly descending levels within 0 to 10, granted reads are an interval apart |
| `Capabilities.KnownEndsDiscovery` | power/capabilities.go:112-125 | once known, no read is ever granted again |
| `Capabilities.ChainEnds` | power/load_balancer.go:212-256 | every verdict and every retry brings a chain closer to its end, and nothing else prolongs it |
| `Capabilities.LevelNeverRises` | power/capabilities.go:64-72 | the clamped level used for a profile lies within 0 to 10 and never rises |
| `Capabilities.LevelIsHighest` | power/capabilities.go:64-72 | it is the highest level up to ten the charge point is not known to refuse, or zero |
| `Capabilities.SentExactly` | power/load_balancer.go:178-256 | a profile is sent only by an assignment or its retry, at that level, and never to a charge point known not to take limits in ampere |
| `Capabilities.LearnsExactly` | power/load_balancer.go:212-256 | a verdict teaches a ceiling, one below the refused level, if and only if it is a refusal above level zero with a retry left and a higher ceiling so far; any other ends the assignment |
| `Correlation.Server.MarkFireAndForget` | server/server.go:521-533 | marks an id for discarding, giving up one entry when the set is full |
| `Correlation.Server.ResolveResponse` | server/server.go:482-502 | an answer goes to its waiting caller, is dropped, or is unmatched; the pump is left blocked exactly when the buffer has no room |
| `Correlation.RunCorrelated` | server/server.go:419-533 | in every interleaving of callers and read pumps: the tables are disjoint, the discard set stays within 1024, a caller holds only an answer given to its own id (section 4.2 of OCPP-J 1.6), and a pump blocks only behind another answer to the same id |
| `Correlation.RunGood` | server/server.go:419-533 | among the invariants behind it: answers matched to a caller are each in flight, buffered or received, none lost or doubled |
| `Correlation.FirstAnswerUnmatchedExactly` | server/server.go:482-502 | the first answer to an issued id is unmatched if and only if its caller stopped listening or the id was evicted |
| `Correlation.BlockedForeverExactly` | server/server.go:498-501 | a blocked pump can be freed by some continuation if and only if its caller is still listening |
| `Correlation.LateDuplicateBlocks` | server/server.go:498-501 | two answers to one request whose caller timed out leave the pump blocked |
| `Measurands.MergeMeasurands` | server/system_handler.go:571-589 | the two loops compute the joined merged list, and report a change if and only if some required name was missing |
| `Measurands.CompletedKeeps` | server/system_handler.go:571-589 | existing entries stay a prefix, nothing required is missing afterwards ignoring case, and what is added was required and is not there twice |
| `Measurands.LowerExactly` | server/system_handler.go:571-589 | names are compared letter by letter but for the case |
| `Measurands.TrimExactly` | server/system_handler.go:571-589 | trimming takes all white space off both ends and nothing else |
| `Measurands.CompletedSameExactly` | server/system_handler.go:580-588 | something is added exactly when a required name was missing |
| `Measurands.SplitJoin` | server/system_handler.go:571-589 | splitting undoes joining on comma-free pieces |
| `Measurands.JoinSplit` | server/system_handler.go:571-589 | joining undoes splitting on every string |
| `Measurands.MergeAgainExactly` | server/system_handler.go:571-589 | merging the same names into its own output changes nothing if and only if every non-blank required name is comma-free |
| `ConsumedEnergy.AggregateAgrees` | internal/mongo.go:1343-1371 | the pipeline lists once each the keys with finished transactions today, with their energy and number over the whole collection |
| `ConsumedEnergy.OneTransaction` | internal/mongo.go:1343-1371 | one transaction adds its energy, never less than nothing, to the group of its charge point and location, if it is finished and ended on the day, in UTC, of the query |
| `ConsumedEnergy.GroupsPartition` | internal/mongo.go:1343-1371 | any such listing, in any order, partitions the finished transactions: energies and counts add up to the totals |
| `ConsumedEnergy.Observer.ObserveConsumedPower` | server/system_handler.go:1545-1571 | the loops refresh every listed series, zero the ones no longer listed, and remember the listed keys |
| `ConsumedEnergy.RefreshShowsToday` | server/system_handler.go:1541-1571 | after a refresh at any point of any run, every series shows exactly the aggregate, or zero when there is none, and every labelled key of the aggregate has a series |

## Left out

- Starts.StartAlwaysAccepted: excludes runs in which storing a new row fails or a restart cannot read the highest id; `Starts.LostRowRefusesStart` and `Hazards.UnreadRestartShares` show why.
- Capabilities.RunSane: whether the connector still runs the same transaction when a retry is considered is a parameter of the verdict event, not read from the session model.
- Correlation.Server.ResolveResponse: a blocked send is reported as a flag; that the pump then waits is in the state machine. SendRequestSync is covered by its parts, the receive and release events, not as a method of its own.
- Looking up a charge point and a connector is atomic here, also for messages that do it without the handler lock in the source, such as meter values and heartbeats.
- The other columns of the documents: connector status, error codes, power rates, voltages, the consumption curve copied onto a closed transaction, tags, reservations, OCPI sessions.
- The set of registered transactions and the active-transactions gauge, the last meter reading in memory, the trigger service, event listeners and logging.
- Aliasing of connector objects between maps, and the per-connector and per-transaction locks inside the handler lock.
- Duplicate documents: collections have unique keys here, and an insert under a key that exists is refused. The repository creates no unique index on transaction ids.
- Recovery.FailedStopIsSwept: of stops whose connector document is stored; a row whose connector is missing waits for the twenty-minute rule.
- Rounding of float64: prices are computed over the reals and cut down as the source does.
- Trimming and lower-casing of text outside Latin-1 white space and ASCII letters.
- The nesting of charge points within a location is flattened in the balancer; reading the location and storing a profile verdict are not modelled.
- The order of a map's iteration in the discard set: the evicted entry is arbitrary.
- OCPP 2.0.1 transactions, which use another id scheme.
- The schema-field migrations 1 and 2, message validation, protocol adapters, the websocket pool, the HTTP API, TLS, the OCPI client, Telegram and the MongoDB driver.
- Payment-plan time windows: whether a user's plan applies now is a parameter.

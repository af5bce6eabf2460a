# Inventory ledger, alerts, reports and fan-out

A Dafny model of the stock-keeping core of the inventory service, with proofs about whole runs of it.
It follows the code, module by module.

**The ledger.** A movement (IN, OUT or TRANSFER) is validated (`Schema`) and then runs as one database
transaction: check the product, and for each leg check the warehouse, lock the row or insert an absent
one, update it, append the movement row, commit. `Ledger` says what a movement is, one at a time.
`Transactions` runs any number of them as a step machine: a state holds the committed tables, the table
of row owners (a lock on a committed row, or an uncommitted insert), and for each request its program
counter, write set and flushed movement row. Any sequence of actions is an interleaving. The database
rules used are these: a locked read of a committed row waits for its owner and then sees the latest
committed value; a locked read of an absent row locks nothing and does not see uncommitted inserts;
an insert waits for another's uncommitted insert of the same pair and then fails on the unique
constraint if that one committed; a session closed without a commit rolls back. Requests may also be
interrupted at any step, and products and warehouses may appear at any time but never disappear.
`Invariant` is the inductive invariant, `LedgerTheorems`, `Progress`, `SerialRuns` and `AbsentRow` are its consequences,
and `Uuids` proves what the lock order rests on: sorting ids by text is sorting them by value.

**Alerts.** `AlertRules` and `Reconciliation` are one evaluation, a manual resolve, and a series of
evaluations, as functions on the alert table. `AlertService` and `CommandService` are the services as
classes that update their tables in place, proved equal to those functions. `Worlds` puts stock, movement
history, alerts and published events into one state and runs whole service calls, one after another:
movements with their evaluations, manual resolves, edits behind the services' back, and sweeps.

**Reports.** `Reports` computes the summary and the valuation as the SQL does (left join, group, COUNT and
SUM with nulls, totals over lines). `ReportTheorems` compares them with the ledger in every state of every
interleaving, `ReportAgreement` with the alert table.

**Fan-out.** `Publisher` is the in-process event publisher and the listener that forwards events to Redis,
`Connections` one process's connection manager, `Relay` the loop that turns Redis messages into local
broadcasts, and `FanOut` any number of processes, in which clients connect, leave and fail, and heartbeats
run, between any two sends of a broadcast. `Dispatch` is the way there: listeners of any number of events run
concurrently, in several processes, and may fail. Redis is assumed to give each subscribed process every message
once, in one order.

Where the code does less than its documentation says, the model follows the code:

- `register_websocket_listeners` is described as called once at startup, but the API process runs it twice
  (app/main.py:32, and app/tasks/celery_app.py:75 through the import at app/services/alert.py:26), so every
  event of that process goes out twice. Delivery is therefore stated for each Redis message;
  `Publisher.SentOnceIffRegisteredOnce` says when that is once for each event.
- The threshold in a low-stock event is the one stored when the alert was created, so after a threshold
  edit it may not be the row's. `AlertRules.EventThreshold` gives the exact condition and
  `AlertRules.EventThresholdCanBeStale` an example.
- A manual resolve leaves a row at or below its threshold without an alert until the next evaluation
  (`Worlds.ResolveBreaksAgreement` says exactly when, `Worlds.ResolvedTooSoon` is an example).
- The out-of-stock count of the summary counts every empty row, but an alert is due only if the threshold is
  not negative, so the two agree exactly when no empty row has a negative threshold
  (`ReportAgreement.CountsAreAlerts`, `ReportAgreement.EmptyRowWithoutAlert`).
- Which error a refused transfer raises depends on the order of the two warehouse ids; whether it is refused does
  not. Errors are compared with the ids and quantities their messages give. `Ledger.TransferRefused` says which
  error it is, `Ledger.TransferErrorOrder` exactly when the order makes no difference, and
  `Ledger.TransferErrorsDiffer` is an example.
- The heartbeat is described as sent to every client of a process; it goes to the global channel only
  (`FanOut.HeartbeatTargets`).
- Nothing checks `is_active`, and the model does not either.

The heavier proofs hide the definitions they do not need (`hide`); nothing is hidden from callers.

## Model

| member | source | states |
|---|---|---|
| Schema.ValidateExact | app/schemas/movement.py:37-83 | the validator accepts exactly the payloads that carry a positive quantity and the warehouse fields their type calls for, and the accepted movement has the payload's own columns, nothing lost or added |
| Schema.ValidateAnswers | app/schemas/movement.py:37-83 | each of the seven complaints is made exactly on its own condition, and an accepted payload keeps its product, quantity, type, source and destination, each as that field |
| Uuids.HexOrder | app/services/inventory_command.py:216-218 | for any width, comparing the fixed-width lower-case hexadecimal digits of two numbers as text is comparing the numbers |
| Uuids.HyphenateOrder | app/services/inventory_command.py:216-218 | the hyphens of the canonical form (section 4 of RFC 9562) do not change the text order |
| Uuids.TextOrder | app/services/inventory_command.py:216-219 | `str` of one id is less than `str` of another exactly when its 128-bit value is, so sorting by text is a strict total order |
| Uuids.TextInjective | app/websockets/listeners.py:91-101 | two warehouses never share a text, so a warehouse's text can serve as its channel |
| Uuids.TextReads | app/websockets/listeners.py:90-101 | an id's text is lower-case hexadecimal in groups of 8, 4, 4, 4 and 12 (section 4 of RFC 9562) and reads back as the id |
| Ledger.LegsInLockOrder | app/services/inventory_command.py:216-233 | whatever the direction of a transfer, its first locked row is in the warehouse with the smaller id, so opposite transfers ask for the same row first |
| Ledger.TransferOrder | app/services/inventory_command.py:219-233 | source first and destination first accept exactly the same transfers, those the source can cover, and reach the same stock |
| Ledger.PerformedExact | app/services/inventory_command.py:98-125 | running the legs one by one succeeds exactly on the legal movements (everything named exists, the source row is present and holds enough) and changes each pair by the movement's delta and no other pair |
| Ledger.TransferErrorOrder | app/services/inventory_command.py:219-233 | the two lock orders of a transfer end the same, error and its details included, if and only if the destination warehouse exists or the source warehouse exists and its row holds enough |
| Ledger.TransferRefused | app/services/inventory_command.py:216-233 | a transfer of an existing product succeeds exactly when neither its source nor its destination has a problem on its own, and otherwise raises the problem of the one with the smaller warehouse id that has one |
| Ledger.RefusedExactly | app/services/inventory_command.py:98-125 | a request run alone fails with exactly the error its type, tables and catalog call for, a missing product first, and succeeds when there is none |
| Ledger.TransferErrorsDiffer | app/services/inventory_command.py:216-233 | two transfers of 5 out of the same row of 3, to warehouses that do not exist, one with a larger id and one with a smaller: one is told of the shortage, the other of its warehouse |
| Ledger.ReplayIsBalance | app/services/inventory_command.py:253-264 | over a legal history every quantity is the pair's inflow minus its outflow and is never negative |
| Ledger.ReplayRows | app/services/inventory_command.py:258-261 | a pair has a row exactly when some movement touched it |
| Events.EventDescribesMovement | app/services/inventory_command.py:145-183 | a movement can be read back from its event, and an IN or OUT event carries its affected row's quantity |
| Invariant.CommitIsEffect | app/services/inventory_command.py:127-137 | at its commit point a transaction's writes turn the committed table into the effect of its movement, which is legal there, whatever ran in between |
| Invariant.HoldingsDisjoint | app/repositories/inventory.py:75-84 | two transactions never own the same pair |
| Invariant.ExecKeeps | app/services/inventory_command.py:98-143 | every step of every interleaving keeps the invariant of tables, owners, private writes and published events |
| LedgerTheorems.Serializable | app/services/inventory_command.py:98-137 | in every reachable state of any number of interleaved requests the committed table is the replay of the committed movements in commit order from empty stock, and every one of them is legal and succeeds there on its own |
| LedgerTheorems.QuantityIsBalance | app/services/inventory_command.py:127-137 | in every reachable state, half-done transactions included, each committed quantity is inflow minus outflow and never negative, and a row exists exactly for the pairs some committed movement touched |
| LedgerTheorems.OneMovementEach | app/services/inventory_command.py:127-137 | there is exactly one movement row for each committed request, with its own data, and none for any other request |
| LedgerTheorems.HistoryOnlyGrows | app/services/inventory_command.py:136-141 | no run changes, removes or reorders a committed movement, a row or a published event |
| LedgerTheorems.AtMostOneRow | app/models/inventory.py:32-36 | no interleaving ever commits two rows for one pair, and each stocked pair has one |
| LedgerTheorems.OneOpenInsert | app/services/inventory_command.py:258-261 | of all open requests that found no row for a pair at most one has inserted it, and no row for it is committed meanwhile |
| LedgerTheorems.LoserAborts | app/services/inventory_command.py:258-261 | a request whose insert comes after the other's commit aborts, changes nothing shared and releases what it held, and the movement that won is in the pair's history |
| AbsentRow.AbsentReadDoesNotWait | app/repositories/inventory.py:75-84 | a locked read of a row that is not committed returns at once, whoever has inserted it: a request that is to increase it goes on to its own insert, one that is to decrease it is refused |
| AbsentRow.WaitsExactly | app/repositories/inventory.py:75-84 | in every reachable state a request's next step is held up if and only if it is locking a committed row that another open request holds, or inserting a row that another open request has inserted |
| AbsentRow.EarlyReaderLoses | app/services/inventory_command.py:253-261 | of two requests for an absent row, one that read before the other's insert was committed commits in no continuation in which the other does |
| AbsentRow.AbortLeavesNoTrace | app/core/session.py:75-76 | whatever aborts a request, no table, row, movement or event changes, it owns nothing any more, nothing it wrote is left, and no other request is touched |
| AbsentRow.InterruptExact | app/core/session.py:75-76 | an interruption rolls back a request that has not committed; after the commit it costs the event and nothing else |
| LedgerTheorems.EventsAreHistorical | app/services/inventory_command.py:139-175 | every published event is the one its own movement called for at its own commit point, whatever committed before it went out, and no movement publishes two |
| LedgerTheorems.ResultingQuantityIsBalance | app/services/inventory_command.py:160-175 | the resulting quantity of an IN or OUT event is the pair's ledger balance at that movement's commit |
| Progress.WaitsGoUp | app/services/inventory_command.py:216-233 | who is waited for holds the wanted row and, if waiting too, waits for a warehouse further on |
| Progress.NoWaitingCircle | app/services/inventory_command.py:216-233 | no chain of waits of any length, over row locks and uncommitted inserts, closes |
| Progress.DeadlockFree | app/services/inventory_command.py:216-233 | in every reachable state with an unfinished request some request can take its next step, and doing so decreases the measure |
| Progress.StuckMeansEnded | app/services/inventory_command.py:216-233 | a reachable state in which no request's step has an effect is one in which all requests have ended |
| Progress.Terminates | app/services/inventory_command.py:98-143 | in every interleaving the requests begun so far take at most the measure's number of effective steps between them |
| Progress.RunsToCompletion | app/services/inventory_command.py:98-143 | from every reachable state, letting requests go on as long as one can ends all of them |
| Progress.EachPublishedOnce | app/services/inventory_command.py:136-143 | without interruptions, when all requests have ended every committed movement has exactly one published event, the one the history calls for at its commit |
| SerialRuns.StepKeepsPrediction | app/services/inventory_command.py:98-137 | no step of a transaction before its commit changes how it would end from there on its own |
| SerialRuns.PredictedIsPerformed | app/services/inventory_command.py:98-137 | in every state, a transaction part way through that has not lost the race for an absent row would end, left alone from there, as its request would if made at that very state |
| SerialRuns.RefusedForReason | app/services/inventory_command.py:292-301 | in every interleaving a step that aborts a request is an interruption, the loss of the race for an absent row, or the refusal, with the same error, that its movement would meet alone at that very state |
| SerialRuns.RequestAlone | app/services/inventory_command.py:98-143 | the step machine run alone is the sequential service: it commits exactly what the legs come to or aborts with exactly their error and leaves the tables as they were |
| SerialRuns.HasSerialRun | app/services/inventory_command.py:98-137 | every interleaving has a run of the same machine, one request at a time, that commits the same movements and the same table |
| AlertRules.GetActive | app/repositories/alert.py:34-56 | the lookup fails exactly when the pair has two active alerts, and otherwise finds the active one or none |
| AlertRules.EvaluateFails | app/services/alert.py:77-79 | an evaluation raises exactly when its pair already has two active alerts |
| AlertRules.EvaluateReconciles | app/services/alert.py:72-109 | afterwards the pair has exactly one active alert of the type its quantity and threshold call for, or none when the quantity is above; one event goes out exactly on a change into LOW or OUT and it announces that pair and condition; nothing about other pairs changes |
| AlertRules.AlertRule | app/services/alert.py:72-88 | for any quantity, any threshold of the row's own, zero included, or none, and any default: afterwards the pair is OK above the threshold, OUT at quantity zero, else LOW |
| AlertRules.QuietEvaluation | app/services/alert.py:81-84 | above the threshold an evaluation returns nothing, publishes and mails nothing, and at most marks the pair's active alert as resolved |
| AlertRules.RaisedEvaluation | app/services/alert.py:86-109 | at or below it, it returns the pair's alert: a new one with the threshold and quantity it was raised at, or the old one with its old threshold and, if its type changes, the new quantity; the event and the one email are for that alert |
| AlertRules.OthersUnchanged | app/services/alert.py:77-109 | an evaluation leaves other pairs' active alerts and conditions alone |
| AlertRules.EventThreshold | app/services/alert.py:90-106 | a low-stock event has the row's quantity, and it has the row's current threshold if and only if no alert raised under another one is being changed |
| AlertRules.EventThresholdCanBeStale | app/services/alert.py:90-96 | an OUT_OF_STOCK alert raised at threshold 10 turns LOW_STOCK when its row has quantity 2 and threshold 3, and its event announces 10 |
| AlertRules.ResolveClears | app/services/alert.py:111-128 | a manual resolve succeeds exactly on an active alert, leaves its pair without one and the others alone, and a second one is refused |
| AlertRules.ResolveAnswers | app/services/alert.py:124-128 | a missing alert is not found, a resolved one is a conflict, and otherwise that one alert's status changes and nothing else |
| Reconciliation.EvaluateConcat | app/tasks/alerts.py:60-72 | evaluating a list of rows in two parts is evaluating it whole, errors included |
| Reconciliation.BatchTrace | app/services/alert.py:77-109 | over any series of evaluations a pair's alert events are the conditions it was found in with repeats of the one before dropped and OK left out, and its alert ends as the last of them |
| Reconciliation.EmailsFollowEvents | app/services/alert.py:160-161 | in any series of evaluations emails and alert events go in step, each email for an alert of the pair that its event announces |
| Reconciliation.BatchOk | app/tasks/alerts.py:66-70 | the series runs to its end exactly when no pair in it has two active alerts |
| Reconciliation.EvaluateAllAgrees | app/tasks/alerts.py:60-72 | from any drifted state with at most one active alert to a pair, evaluating every row once brings all of them into agreement and the count of alerts is the number of rows at or below their threshold |
| Reconciliation.SweepConverges | app/tasks/alerts.py:60-72 | a second sweep changes no alert, publishes nothing and queues no email |
| AlertService.AlertService.EvaluateStockLevel | app/services/alert.py:54-109 | the method, in place, does to alerts, events and emails what the reconciling function says, changes nothing when the lookup raises, and keeps the Redis log in step with the events |
| AlertService.AlertService.ResolveAlert | app/services/alert.py:111-128 | the method resolves exactly the given alert or refuses without changing anything |
| AlertService.SweepPages | app/tasks/alerts.py:53-79 | for any row count and any positive page size the paged loop terminates and does what evaluating each row once in order does; it reports the row count as evaluated and the number of rows at or below their threshold as alerts active, and it fails exactly when some pair already had two active alerts |
| AlertService.CheckLowStockLevels | app/tasks/alerts.py:53-79 | the same at the page size the code uses |
| CommandService.InventoryCommandService.IncreaseStock | app/services/inventory_command.py:235-264 | the method adds to the one row, creating it if absent without a threshold of its own, or refuses and changes nothing |
| CommandService.InventoryCommandService.DecreaseStock | app/services/inventory_command.py:266-304 | the method takes from the one row, or refuses a missing row or too small a quantity and changes nothing |
| CommandService.InventoryCommandService.TransferStock | app/services/inventory_command.py:185-233 | both legs are done in lock order and the two rows come back as source, destination whichever came first |
| CommandService.InventoryCommandService.RecordMovement | app/services/inventory_command.py:77-143 | the whole call, in place, takes stock, history, alerts and events to what the sequential meaning says, rolls all back on an error before the commit, even when the destination row had been created first, and keeps the Redis log in step with the events |
| Worlds.RowsExact | app/services/inventory_command.py:262-302 | a movement changes the quantity of the rows it touches by what it moves and nothing else about any row; a threshold survives it, and a new row has none |
| Worlds.RefusedAnswer | app/services/inventory_command.py:92-96 | a refused movement answers with its own error and changes nothing at all |
| Worlds.CommittedAnswer | app/services/inventory_command.py:136-143 | a movement that is not refused is committed and answers with itself, its own event last; if a pair it touches already had two active alerts, the answer is that error, its event is left out, and the commit stands |
| Worlds.OutAnswers | app/services/inventory_command.py:285-304 | an OUT answers with a missing product, warehouse or stock record or the shortage with what is held, each on its condition, in that order, and else with itself |
| Worlds.InAnswers | app/services/inventory_command.py:251-264 | an IN answers with a missing product or warehouse and else with itself |
| Worlds.TransferAlertOrder | app/services/inventory_command.py:125-140 | a transfer's alert events speak of the source before the destination, whichever row was locked first |
| Worlds.AlertTrace | app/services/alert.py:72-109 | over any run of movements, resolves, edits and sweeps the alert events of a pair are the changes into LOW and OUT among the conditions it was found in, a manual resolve counting as OK, and its alert stands at the last of them |
| Worlds.MovementsKeepAgreement | app/services/inventory_command.py:139-140 | after any run of movements every row at or below its threshold has exactly one active alert of the right type and every other pair has none |
| Worlds.RequestsKeepFaith | app/services/alert.py:111-128 | with manual resolves among the calls every active alert is still of the right type for its row |
| Worlds.ResolveBreaksAgreement | app/services/alert.py:111-128 | from an agreed state a manual resolve keeps agreement if and only if the alert does not exist or is already resolved, and it never leaves a wrong alert |
| Worlds.ResolvedTooSoon | app/services/alert.py:111-128 | receiving one unit at threshold 10 into empty tables and resolving the alert it raises loses agreement |
| Worlds.RunKeepsOrder | app/repositories/alert.py:39-41 | no run of calls and edits gives a pair two active alerts or an alert without a row |
| Worlds.SweepRepairs | app/tasks/alerts.py:60-72 | after any run from empty tables a sweep in any row order makes alerts and stock agree fully, and another one in any other order changes nothing |
| Worlds.RecordAnnounces | app/services/inventory_command.py:139-141 | a recorded movement publishes alert events only and then its own event, which says what the ledger says at that point |
| Worlds.AlertsFollowLedger | app/services/inventory_command.py:127-141 | after any run of movements from empty tables stock is the replay of the recorded movements, alerts agree with stock, and a pair's alert events are the changes its ledger balance went through |
| Reports.SummaryLineExact | app/services/report.py:59-90 | each line has the count, sum, low count and empty count of exactly its own warehouse's rows, and zeros for a warehouse without rows |
| Reports.GroupsPartition | app/services/report.py:72-74 | the warehouse groups, empty ones included, partition the rows, for any column |
| Reports.SummaryTotals | app/services/report.py:92-99 | the global figures, summed from the lines, are those of all rows together |
| Reports.CountsExact | app/services/report.py:57-70 | the low count is the number of rows at or below their own threshold, zero included, or the default when they have none, and the out-of-stock count the number of empty rows, in one warehouse or all |
| Reports.ValuationTotals | app/services/report.py:108-136 | each valuation line is its own warehouse's quantities at their products' prices and the total is that of all rows |
| Reports.OneRowReports | app/services/report.py:64-116 | a single row contributes its quantity, and its quantity times its product's price |
| ReportTheorems.SummaryFollowsLedger | app/services/report.py:44-99 | a summary read at any point of any interleaving totals committed IN minus committed OUT, so never half a transfer, and each line is its warehouse's own net flow |
| ReportTheorems.ValuationFollowsLedger | app/services/report.py:101-136 | a valuation read at any point of any interleaving is the committed movements' net flow at the products' prices, in total and for each warehouse |
| ReportTheorems.TransferConservesValuation | app/services/report.py:108-136 | one more committed transfer leaves the total value as it was and moves exactly quantity times price from the source's line to the destination's |
| ReportAgreement.CountsAreAlerts | app/services/report.py:65-70 | in an agreed state, for one warehouse or all, the low-stock count is the number of active alerts and the out-of-stock count is the number of OUT_OF_STOCK alerts plus the empty rows with a negative threshold |
| ReportAgreement.RowsAreProducts | app/services/report.py:63 | the row count of a warehouse is its number of different products, because pairs are unique |
| ReportAgreement.SummaryAgreesWithAlerts | app/services/report.py:56-99 | the summary agrees with the alert table line by line and in total, the out-of-stock figures if and only if no empty row has a negative threshold |
| ReportAgreement.EmptyRowWithoutAlert | app/services/report.py:68-70 | with a default threshold of -1, receiving one unit and removing it again leaves a row that the summary counts as out of stock and no OUT_OF_STOCK alert |
| ReportAgreement.AllViewsAgree | app/services/report.py:44-136 | after any run of movements from empty tables ledger, stock, alerts, summary and valuation all agree, in total and for every warehouse's line |
| ReportAgreement.SweepThenReport | app/tasks/alerts.py:60-72 | after any run from empty tables a summary taken after a sweep agrees with the alert table |
| Publisher.ChannelIsWarehouse | app/websockets/listeners.py:78-102 | an event is for a warehouse's channel exactly when it names that warehouse |
| Publisher.MovementChannels | app/websockets/listeners.py:90-101 | a movement's event reaches the channels of exactly the warehouses the movement touches |
| Publisher.EventTypesDiffer | app/websockets/listeners.py:45-51 | two events have the same type exactly when they are of the same kind |
| Publisher.SentOnceIffRegisteredOnce | app/websockets/listeners.py:73-75 | with the listener registered n times a series of events is sent once each exactly when n is 1 |
| Publisher.InProcessEventPublisher.Subscribe | app/events/publisher.py:33-40 | a handler is appended to its type's list, duplicates included, and other types' lists stay |
| Publisher.InProcessEventPublisher.Publish | app/events/publisher.py:42-62 | run on its own with listeners that do not fail, one copy goes to Redis for each registration |
| Publisher.RegisterWebsocketListeners | app/websockets/listeners.py:54-75 | the listener is added once more to every event type |
| Publisher.StartApiProcess | app/tasks/celery_app.py:75 | the API process registers it twice, so its log holds every event twice |
| Connections.MembershipExact | app/websockets/manager.py:43-77 | adding and removing change exactly one membership and leave no empty channel |
| Connections.DisconnectUndoesConnect | app/websockets/manager.py:53-77 | a connection that joins and leaves a channel leaves no trace |
| Connections.BroadcastExact | app/websockets/manager.py:101-118 | a broadcast reaches every working connection on a target channel or the global one exactly once and no other, drops exactly the failing ones from those channels and leaves every other membership alone |
| Connections.ConnectionManager.Connect | app/websockets/manager.py:43-59 | the connection is on the channel, nothing else changes, no channel is empty |
| Connections.ConnectionManager.Disconnect | app/websockets/manager.py:61-77 | the connection is off the channel, harmless if it was not on it, and a channel left without any is deleted |
| Connections.ConnectionManager.Broadcast | app/websockets/manager.py:79-118 | the loops over channels, targets and stale connections come to one send to each target and the removal of the failing ones |
| Relay.RelayToLocalClients | app/websockets/pubsub.py:117-126 | the loop broadcasts each message that decodes, in order, and skips notices and malformed ones |
| Relay.RelayDelivers | app/websockets/pubsub.py:117-126 | a connection that never fails stays registered and gets exactly the messages for its channel, once each, in order, whatever else is in the stream and whoever else fails |
| Relay.EventsReachChannel | app/websockets/listeners.py:65-75 | with n registrations a channel is sent n copies of each event that concerns it, in order |
| Relay.HearsWarehouse | app/websockets/manager.py:101-107 | the global channel hears every event, a warehouse's channel exactly those that name it |
| FanOut.DoKeeps | app/websockets/manager.py:101-118 | each step of any process, client or broadcast keeps the invariant, with connects, disconnects and heartbeats between any two sends |
| FanOut.Delivery | app/websockets/pubsub.py:117-126 | in every run of any number of processes a client that has neither left nor failed is registered and has got exactly the messages for its channel among those its process took since it came, once each and in publish order, but for one still on its way |
| FanOut.DeliveryComplete | app/websockets/pubsub.py:87-126 | once its process has relayed everything such a client has got everything published for its channel since it came |
| FanOut.LogIsPublished | app/websockets/pubsub.py:87-89 | the log is what was published in the run, in order, whatever processes and clients do |
| FanOut.StartsAtSubscription | app/websockets/pubsub.py:111-117 | a process that subscribes starts with the next message published, and with no connections |
| FanOut.OnlySinceSubscribed | app/websockets/pubsub.py:111-117 | in every continuation a process and all its clients get only what was published after the process subscribed |
| FanOut.ConnectRegisters | app/websockets/manager.py:53-54 | a new connection is registered at once with nothing received, and is served from the next message its process takes |
| FanOut.DisconnectExact | app/api/v1/endpoints/websockets.py:50-58 | a client may leave at any time, also in the middle of broadcasts or after failing, and only its own membership goes |
| FanOut.HeartbeatTargets | app/core/scheduler.py:27-38 | a heartbeat is for the connections on the global channel and no others |
| FanOut.RelayCatchesUp | app/websockets/pubsub.py:117-126 | from any state a process can relay all that is published by steps of its own relay, whatever clients, heartbeats and other processes do or do not do |
| FanOut.DeliveryPossible | app/websockets/pubsub.py:117-126 | so in every reachable state a client that has neither left nor failed can still get all of its messages |
| FanOut.SameOnEveryProcess | app/websockets/pubsub.py:11-15 | clients of one channel on different processes get the same messages from the moment the later one came |
| FanOut.EventsDelivered | app/websockets/listeners.py:65-75 | for a log that holds the copies of one series of events in order: n copies, in order, of each event that concerns the client's channel and nothing else |
| Dispatch.LogCounts | app/events/publisher.py:59-61 | in any interleaving of publications, their concurrent listeners and failing listeners, from any number of requests and processes, Redis has as many copies of each event as were sent, each on its event's own channels |
| Dispatch.SettledLog | app/events/publisher.py:55-70 | when all listeners have run, the copies in Redis are the registrations less the copies lost to failing listeners |
| Dispatch.PublicationsAreRaised | app/events/publisher.py:55-61 | the copies asked for are one for each registration at each publication, and none is lost unless a listener fails |
| Dispatch.CanSettle | app/events/publisher.py:59-61 | from any state letting the remaining listeners run settles everything |
| Dispatch.RelevantCounts | app/websockets/manager.py:101-107 | a channel hears all arrivals of an event that concerns it and none of any other |
| Dispatch.EveryCopyArrives | app/websockets/pubsub.py:117-126 | from domain events to a client in any such interleaving, also with processes that have the listener registered differently often: once settled and caught up, the client has as many copies of each event of its channel as publications raised for their registrations, less those lost, and no other |
| FanOut.Bookkeeping | app/websockets/manager.py:53-77 | no channel is ever left empty, who is registered is a client of that process and channel, and with no broadcast under way exactly the clients that have neither left nor failed are registered |
| FanOut.BroadcastAlone | app/websockets/manager.py:105-118 | with nothing in between, the steps of a broadcast come to what the manager does in one call, in whatever order the targets are sent to |

## Left out

- ORM objects: rows are values in maps and sequences, so identity, aliasing and refreshes of loaded objects are not modelled; each request has its own session and reads a row first with the lock.
- Columns that decide nothing: reason, performed_by, timestamps and generated ids other than an alert's position.
- Lock interactions through foreign keys, predicate locks and statement timeouts.
- 32-bit columns: quantities and prices are unbounded integers (prices in cents); an overflow is one of the interruptions that abort a request.
- Alerts under interleaved evaluations or a sweep concurrent with movements: evaluation takes no lock and the alerts table has no uniqueness constraint, so nothing is claimed; `Worlds` runs whole calls one after another.
- Row order of the paged sweep: one stable order is assumed, and no inserts between its pages.
- Publisher.InProcessEventPublisher.Publish: one publication run on its own, with listeners that do not fail; concurrent publications, whose copies may alternate, and failing listeners are in `Dispatch`.
- Publisher.InProcessEventPublisher.InStep: speaks of a log that only this process writes to, one publication after another; `Dispatch` and `FanOut` take any log.
- FanOut.EventsDelivered: assumes one series of events at one registration count; `Dispatch.EveryCopyArrives` does not, but counts copies where this one gives their order.
- Redis outages, other than as failing listeners; an event lost after the commit is an interruption in `Transactions`.
- The serialized form of an event: the message stands for the event's own fields; event ids and times are left out.
- Names on report lines and the order of the lines, and the time a report was generated.
- Shutting a process down: its clients are then gone in the model only through disconnects.
- Heartbeats reach the global channel only; nothing is claimed about other channels.
- The email task itself: alerts are queued by id, and a broker failure is not modelled.
- `list_low_stock`, the movement listing, product and warehouse management, the report cache, HTTP, authentication, CSV, Celery and SMTP: lookups and plumbing.

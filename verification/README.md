# monitoring24: a verified model of its stateful core

monitoring24 is a single-process server monitor. This project models the parts of it that keep
state and proves what they keep over whole runs:

- **Alerts** (`Alerts`, `AlertEngine`, `AlertIndex`, `AlertRuns`, `AlertLifecycle`,
  `AlertLevels`, `AlertReadings`): the engine holds an index of the active alerts and a copy of the thresholds;
  both must agree with the tables below it through failed statements, purges, acknowledgements,
  restarts whose load may fail, and crashes in the middle of an evaluation.
- **Broker** (`Broker`, `BrokerSafety`, `BrokerIds`, `BrokerDelivery`, `BrokerQueue`, `BrokerObject`, `EventStream`): one
  select loop and any number of client handlers, joined by bounded channels. One action is one
  channel operation and every interleaving is a run. The wire format is proved against a reader
  written from sections 9.2.5 and 9.2.6 of the WHATWG HTML Living Standard.
- **URL checker** (`Checker`, `CheckerSafety`, `CheckerOwnership`, `CheckerSummaries`, `CheckerOverlap`,
  `CheckerHistory`, `CheckerObject`): goroutines owned through stop channels, two maps under a lock, and a history
  that caches the newest twenty rows of the results table. One action is one critical section,
  one database statement or one probe.
- **Collector** (`Collector`, `CollectorRemoval`, `CollectorObject`): the fast tick over all of the above, with the
  evaluation one iteration at a time and everything else free to happen in between.
- **Storage** (`Database`, `Storage`, `Uptime`, `PurgeWindows`): the tables, what each statement does to
  them, what an uptime and a count of failed logins mean, and the invisibility of the purge.
- **Auth log** (`AuthLog`, `CaseFold`; `Chunks` is shared with `EventStream`): the offset-based reader and the hand-written substring
  search.
- **Decimal** (`Decimal`): the printer that fills a ten-byte buffer from the right.

Where the source updates an object, there is a class whose methods run its loops and branches
(`AlertEngine.Engine`, `BrokerObject.Hub`, `CheckerObject.Monitor`, `Storage.DB`,
`AuthLog.Parser`, `CollectorObject.FastTick`). Each method's contract ties the object's `View()`
to a function or a run of the protocol and also states the new state in terms of the old, and the
theorems are about those functions and runs. Whatever the program
does not control is a parameter or a choice of the run: whether a statement succeeds, the clock,
the outcome of a probe, the order in which a map is walked, the order of rows with equal times,
which case a select takes.

Some properties one would expect do not hold of the code. For these there is a run or an input
that shows it, and the exact condition under which the property does hold:

| expected | what the code does | shown by | holds exactly when |
|---|---|---|---|
| a restart changes nothing | the error of a resolve is dropped, and the lost row comes back | `AlertLevels.LostResolveComesBack` | `AlertLevels.RestartInvisibleIff`, `AlertRuns.RestartTransparentIff` |
| each kind has one unresolved row, and the index names it | a load that fails is only logged; the program runs on with empty maps and fires again | `AlertRuns.FailedLoadDuplicates` | `AlertRuns.ExactThroughoutIff`, `AlertIndex.EveryIterationExactIff` |
| a returned alert is unresolved | a mountpoint that is listed twice can fire and resolve in one evaluation | `AlertLevels.TwiceListedMount` | `AlertLevels.FiredUnresolvedIff` |
| the alert of a deleted check clears | no later evaluation mentions it, so it stays, through restarts too | `CollectorRemoval.DeletedCheckStaysAlerted` | `CollectorRemoval.AlertClearsIff` |
| the registry is the serving clients | an unregistration may be handled before its registration, for good | `BrokerSafety.OvertakingHappens`, `BrokerSafety.OvertakenForever` | `BrokerSafety.RegistryExact` |
| no send on a closed channel | a repeated id together with overtaking breaks it | `BrokerIds.CollisionPanics` | `BrokerIds.SafeIdsIff` |
| every open stop channel can be closed | two updates of one check at once leave one that cannot | `CheckerOverlap.ConcurrentUpdatesLeak` | `CheckerOverlap.LeakIff` |
| a deleted check stays away | an update that overlaps the delete brings it back into memory | `CheckerOverlap.OverlapBringsBack` | `CheckerOverlap.CanComeBackIff` |
| polls ingest what a single pass would | a poll that stops in the middle of a line makes two lines of it | `AuthLog.MidLineSplitAddsALine` | `AuthLog.PollsEqualBatchIff` |
| a rotated log is read from its start | when the new file has already outgrown the offset, its head is skipped | `AuthLog.MidLineRotationLoses` | `AuthLog.PollReadsFileIff` for every meaning of the lines, `AuthLog.UnseenRotationSkipsHead` for one |
| the search ignores case | a needle with an upper-case letter is never found | `CaseFold.UpperNeedleNeverMatches` | `CaseFold.CaseInsensitiveIffLowerNeedle` |
| any event survives the wire | an event without a type, or with a line break, does not | `EventStream.BrokenFrames` | `EventStream.RoundTripIff` |

## Model

| member | source | states |
|---|---|---|
| `AlertRuns.RestartsAreTransparent` | internal/alerts/alerts.go:51-70 | over every faultless run of evaluations, threshold updates, acknowledgements, purges, crashes and restarts, removing all restarts changes neither the alerts that fire, the tables, the engine nor the history; faultless: no attempted resolve fails, and a query of a load fails only where it has nothing to lose |
| `AlertRuns.RestartsAnywhere` | internal/alerts/alerts.go:49-70 | two such runs that differ only in where they restart end alike and fire alike |
| `AlertRuns.RunKeepsLoaded` | internal/alerts/alerts.go:106-198 | over every such run, crashes in the middle of an evaluation included: thresholds equal the table, at most one unresolved row per kind, and the index is exactly the unresolved rows |
| `AlertRuns.RunKeepsWeak` | internal/alerts/alerts.go:51-70 | over every run whatever fails or crashes, loads of a restart included, each index entry names an unresolved row of its kind |
| `AlertRuns.LoadedThroughoutIff` | internal/alerts/alerts.go:51-70 | a run from agreement keeps memory and tables in agreement after every operation, and at every crash, if and only if it is faultless |
| `AlertRuns.ExactThroughoutIff` | internal/alerts/alerts.go:51-70 | a run that begins with an exact index keeps it the unresolved rows, one per kind, after every operation and at every crash if and only if no attempted resolve fails and a load fails to read the alerts only where none is unresolved, whatever becomes of the thresholds |
| `AlertRuns.ExactAfterLoadIff` | internal/alerts/alerts.go:60-68 | over any tables, a load finds the exact index if and only if it reads the alerts or none is unresolved, and no kind has two unresolved rows |
| `AlertRuns.RestartTransparentIff` | cmd/server/main.go:58-60 | a restart of a loaded system changes nothing if and only if each query that fails had nothing to load |
| `AlertRuns.LoadedAfterLoadIff` | internal/alerts/alerts.go:51-70 | over any tables, a start leaves memory and tables in agreement if and only if the failed queries had nothing to load and no kind has two unresolved rows |
| `AlertRuns.FailedLoadDuplicates` | cmd/server/main.go:58-60 | with no resolve failing: a restart that cannot read the alerts, then one evaluation, gives a kind a second unresolved row |
| `AlertRuns.PurgeKeepsIndex` | internal/storage/sqlite.go:43-57 | a purge cut short anywhere removes no row the index speaks of |
| `AlertRuns.ReloadChangesNothing` | internal/alerts/alerts.go:60-68 | over a loaded system, a new engine rebuilds the very engine it replaces, whichever order rows of one second are listed in |
| `AlertRuns.OpsDo` | internal/alerts/alerts.go:83-91 | an update sets one threshold in the table and in the engine, or neither when the statement fails; an acknowledgement marks its one row; a purge deletes what is too old; none touches the index |
| `AlertIndex.EveryIterationExactIff` | internal/alerts/alerts.go:167-195 | at every iteration, and after the early return, the index is exactly the unresolved rows if and only if no attempted resolve has failed |
| `AlertIndex.EveryIterationWeak` | internal/alerts/alerts.go:167-195 | at every iteration, whatever fails, every index entry names an unresolved row of its kind |
| `AlertIndex.ExactMeansIndex` | internal/alerts/alerts.go:38 | an exact index is the relation between kinds and unresolved rows, as sets of pairs, and then each kind has at most one such row |
| `AlertIndex.ReloadPicksOldest` | internal/alerts/alerts.go:60-67 | where a kind has several unresolved rows, a load indexes one that fired no later than any of them |
| `AlertIndex.ReloadIsExact` | internal/alerts/alerts.go:60-67 | over one unresolved row per kind, a load builds the exact index |
| `AlertIndex.LoadsLast` | internal/alerts/alerts.go:64-67 | over an engine that already has entries, a listed kind gets the id of its last listed row |
| `AlertIndex.LoadKeepsOthers` | internal/alerts/alerts.go:64-67 | and a kind that is not listed keeps its entry |
| `AlertLifecycle.KindsAlternate` | internal/alerts/alerts.go:172-194 | over every faultless run with purges, restarts and crashes each kind strictly alternates fire and resolve, each resolve is of the alert fired last, and fires minus resolves says whether it is active |
| `AlertLifecycle.FiredIdsIncrease` | internal/storage/schema.go:7 | over every run whatever fails, the ids of fired alerts strictly increase |
| `AlertLevels.DistinctMetricsDistinctKinds` | internal/alerts/alerts.go:117-165 | distinct mountpoints and distinct check ids give pairwise distinct kinds, through prefixes and decimal printing |
| `AlertLevels.LevelTriggered` | internal/alerts/alerts.go:168-195 | for any checks, a kind ends active as its last check with a positive threshold says, and a kind without one keeps its alert |
| `AlertLevels.ActiveIffBreached` | internal/alerts/alerts.go:168-195 | with no failed insertion, a kind checked once and with a positive threshold is active if and only if its value has reached it |
| `AlertReadings.HostFollows` | internal/alerts/alerts.go:117-195 | after an evaluation without a failed insertion, "cpu_pct", "ram_pct" and "swap_pct" are each active if and only if that reading has reached the positive threshold configured under that key, and keep their alert when there is none |
| `AlertReadings.DiskFollows` | internal/alerts/alerts.go:138-195 | so is "disk_pct:" and the mountpoint, against "disk_pct", for each disk whose mountpoint is listed once |
| `AlertReadings.UrlFollows` | internal/alerts/alerts.go:148-195 | "url_down:" and the id is active if and only if the url is not up, for each id listed once |
| `AlertReadings.OthersKeepEntries` | internal/alerts/alerts.go:168-195 | every kind the metrics do not mention keeps its alert |
| `AlertReadings.FiredHoldReadings` | internal/alerts/alerts.go:117-187 | every alert that fires, early return or not, is about one reading that has reached its threshold, and its row holds that kind, message, reading and threshold and the time of the check, unresolved and not acknowledged |
| `AlertReadings.FailsIff` | internal/alerts/alerts.go:181-184 | an evaluation fails if and only if some attempted insertion does |
| `AlertReadings.FailureStops` | internal/alerts/alerts.go:181-184 | from a failed insertion on it does nothing, and what had fired is returned |
| `AlertReadings.RowsAreKept` | internal/alerts/alerts.go:190-194 | at every iteration a row that was there is as it was, or was unresolved and has been resolved by a check of its kind that found it cleared, at the time of that check |
| `AlertReadings.NewRowsFired` | internal/alerts/alerts.go:181-187 | every new row is that of an alert that fired |
| `AlertReadings.ClearedIsResolved` | internal/alerts/alerts.go:190-194 | a reading below its threshold leaves the row of its active alert resolved at the time of the check, if the update succeeds |
| `AlertLevels.FiresNewlyBreached` | internal/alerts/alerts.go:172-188 | exactly the breached kinds that were not active fire, in check order |
| `AlertLevels.FiredArePersisted` | internal/alerts/alerts.go:181-187 | every returned alert whose kind is checked once, even after an early return, is an unresolved row with the returned id and is the one indexed |
| `AlertLevels.FiredStaysIff` | internal/alerts/alerts.go:168-195 | for any checks, an alert that fires is still the active one of its kind at any later iteration if and only if no later check of its kind has found it cleared |
| `AlertLevels.FiredUnresolvedIff` | internal/alerts/alerts.go:168-195 | for any checks, the row of an alert that fires is unresolved at any later iteration if and only if no later check of its kind has found it cleared or the update of the first that has failed |
| `AlertLevels.TwiceListedMount` | internal/metrics/system.go:113-131 | one mountpoint listed with two readings: the returned alert is already resolved |
| `AlertLevels.OrderFree` | internal/alerts/alerts.go:168 | the active kinds do not depend on the order of the checks |
| `AlertLevels.RepeatDoesNothing` | internal/alerts/alerts.go:169-195 | repeating an evaluation with the same metrics fires nothing and changes nothing, whatever the database would do |
| `AlertLevels.RestartInvisibleIff` | internal/alerts/alerts.go:191 | after an evaluation, early return included, a restart is invisible if and only if the queries that fail have nothing to give and, when none fails, no attempted resolve failed |
| `AlertLevels.LostResolveComesBack` | internal/alerts/alerts.go:191 | one alert, a clearing reading and a failing update: the engine forgets the alert and a restart finds it again |
| `AlertEngine.Engine.Evaluate` | internal/alerts/alerts.go:106-198 | the loop with its branches and early return leaves the tables, both maps, the fired list and the error as the evaluation function says |
| `AlertEngine.Engine.LoadThresholds` | internal/alerts/alerts.go:51-70 | both maps after a load, with either query failing; from an empty engine it is the load of the run theorems |
| `AlertEngine.Engine.UpdateThreshold` | internal/alerts/alerts.go:83-91 | table and map change together, and neither does when the statement fails |
| `AlertEngine.Engine.BuildChecks` | internal/alerts/alerts.go:117-165 | the checks written out: "cpu_pct", "ram_pct" and "swap_pct" with their own readings, then one per disk against "disk_pct", then one per url against 1, with kinds, messages, values and thresholds |
| `Collector.ActiveIffRead` | cmd/server/main.go:138-165 | in every interleaving of ticks, single iterations, checker steps, acknowledgements, purges, threshold updates and restarts with failing loads: after a tick whose insertions succeed and until the next evaluation, cpu, ram, swap and each disk listed once are active if and only if that reading has reached the positive threshold the evaluation went by, and each check of the snapshot if and only if its last result is there and down |
| `Collector.BroadcastsArePersisted` | cmd/server/main.go:156-165 | in every such interleaving, an alert about to be broadcast is at that moment an unresolved, indexed row with that id, unless it is about a mountpoint the host lists twice; it holds a reading of this tick that has reached its threshold, or names a check by its label or url that this tick's snapshot has down |
| `Collector.MapOrderIsIrrelevant` | cmd/server/main.go:145-155 | the order in which the map of summaries is walked does not change which alerts are active |
| `CollectorRemoval.AlertClearsIff` | cmd/server/main.go:145-162 | from any state after a check was deleted, some serialised continuation, restarts included, resolves its alert if and only if it is the active one of its kind and the tick in progress read a summary of the check that is not down and has not evaluated it yet |
| `CollectorRemoval.AlertOutlivesCheck` | cmd/server/main.go:145-162 | otherwise the alert stays an unresolved row in every continuation, failed loads included, and its kind stays active while loads are complete |
| `CollectorRemoval.DeletedIsGone` | internal/urlcheck/checker.go:234-240 | when a delete returns in a serialised run of the whole program, the id is gone from the table and was handed out before, which is what the two results above start from |
| `CollectorRemoval.DeletedCheckStaysAlerted` | internal/urlcheck/checker.go:234-240 | a run from an empty database: a check is created, found down, alerted and deleted, and in every continuation its alert is unresolved |
| `Collector.CheckerKeepsAlerts` | internal/urlcheck/checker.go:125-158 | no step of the checker touches the alerts or the thresholds |
| `CollectorObject.FastTick` | cmd/server/main.go:129-180 | a whole tick over the three objects: if no insertion fails, cpu, ram, swap, each disk listed once and each check are active exactly as the tick has read them; every alert that fired holds what was read and the configured threshold and, if its kind is checked once, is persisted; and the broker is offered the fired alerts in order and then the other snapshots, up to the room for 256 |
| `CollectorObject.PublishedInOrder` | internal/sse/broker.go:84-89 | publishing a list queues it in order up to the free room and loses the rest |
| `CollectorObject.TickFacts` | cmd/server/main.go:145-165 | what one uninterrupted evaluation of any tick leaves behind, insertions failing or not: activity as read, thresholds kept, fired alerts holding what was read |
| `CollectorObject.TickIsARun` | cmd/server/main.go:138-165 | a tick that nothing interrupts is a run of the program over the summaries of that moment: its single iterations leave what one evaluation leaves, early return included |
| `CollectorObject.BuildUrls` | cmd/server/main.go:146-155 | one alert input per summary, up when there is no result yet |
| `BrokerSafety.ChannelSafety` | internal/sse/broker.go:44-140 | in every run with distinct ids: no send on a closed channel, no second close, a channel is closed only after its handler has returned (so a handler never receives from a closed channel), and no queue exceeds its bound |
| `BrokerSafety.PanicNeedsBoth` | internal/sse/broker.go:55-72 | whatever ids are drawn, a run in which no registration is overtaken does not panic; with distinct ids none does |
| `BrokerIds.SafeIdsIff` | internal/sse/broker.go:44-140 | no run that draws exactly these ids, in this order, sends on a closed channel or closes one twice if and only if the ids are pairwise distinct |
| `BrokerIds.CollisionPanics` | internal/sse/broker.go:57-67 | for any ids with a repetition, a run that draws them in which overtaking puts a closed channel into the map and the next event is sent on it |
| `BrokerSafety.RegistryExact` | internal/sse/broker.go:50-61 | when nothing is waiting, the map is exactly the serving clients and the overtaken ones, ClientCount is the size of that union, and it is the number of serving clients if and only if none was overtaken |
| `BrokerSafety.OvertakenForever` | internal/sse/broker.go:55-61 | an overtaken client that has been registered stays in the map in every continuation |
| `BrokerSafety.OvertakingHappens` | internal/sse/broker.go:125-126 | a run with distinct ids after which nobody is served and one client is counted |
| `BrokerDelivery.Delivery` | internal/sse/broker.go:63-72 | for every client of every run with distinct ids: what it received followed by what is buffered is, in order and without repetition, what was dispatched from its registration to its removal less exactly the events that found 64 buffered; received + buffered + dropped = dispatched |
| `BrokerDelivery.WireDelivers` | internal/sse/broker.go:128-135 | reading what a handler wrote gives back what it received, for dispatched events that fit the format |
| `BrokerQueue.QueueKeepsOrder` | internal/sse/broker.go:63-89 | over any run, whatever ids are drawn: the events dispatched followed by those waiting are exactly the broadcasts and heartbeats that found fewer than 256 waiting, each once and in order |
| `BrokerQueue.StepQueue` | internal/sse/broker.go:63-89 | one step: a broadcast or heartbeat is appended to dispatched and waiting unless 256 wait, taking moves one event, and no other step changes anything |
| `BrokerQueue.OffersAreRecorded` | internal/sse/broker.go:66-70 | a send appends the event to the buffer unless 64 are in it, and no other step adds to or loses from what a client received and has buffered |
| `BrokerQueue.PublishedDelivery` | internal/sse/broker.go:63-89 | delivery from publishing on: what a client received and has buffered is, in order and without repetition, what was published, found room and was dispatched from its registration to its removal, less exactly the events that found 64 buffered |
| `BrokerQueue.NothingLost` | internal/sse/broker.go:63-89 | while a client keeps up and nothing waits, it has received all that was queued from its registration on |
| `BrokerObject.Hub.Dispatch` | internal/sse/broker.go:63-72 | one event leaves the head of the queue, the rest stays, and the loop over the map offers it once to every registered client and to no other, as a run of the protocol |
| `BrokerObject.Hub.Turn` | internal/sse/broker.go:49-79 | each case of the select is taken when it is ready, as that step of the protocol, and does nothing when it is not |
| `BrokerObject.Hub.RunLoop` | internal/sse/broker.go:48-80 | any sequence of turns takes each case that is ready in turn, as a run of the protocol that keeps its invariant, up to the first done |
| `BrokerObject.Hub.HandleRegister` | internal/sse/broker.go:50-53 | the oldest waiting registration enters the map under its id |
| `BrokerObject.Hub.HandleUnregister` | internal/sse/broker.go:55-61 | the oldest waiting unregistration deletes its client and closes its channel if the id is in the map, and touches no other |
| `BrokerObject.Hub.Broadcast` | internal/sse/broker.go:84-89 | the event is queued, or dropped when 256 are waiting |
| `BrokerObject.Hub.Subscribe` | internal/sse/broker.go:121-126 | a connection with a 64-slot buffer is enqueued for registration and begins to serve |
| `BrokerObject.Hub.ReceiveOne` | internal/sse/broker.go:128-139 | one turn of the handler's loop writes "event:", the type, "data:" and the data of the oldest buffered event and removes it from the buffer, or leaves |
| `EventStream.RoundTripIff` | internal/sse/broker.go:134 | a list of events is read back from its frames if and only if every event has a type and neither part has a line break |
| `EventStream.ChunkedRoundTrip` | internal/sse/broker.go:134 | the same if and only if, read incrementally from arbitrary chunks |
| `EventStream.IncrementalEqualsBatch` | internal/sse/broker.go:134 | for every stream and every way to cut it, the incremental reader dispatches what the batch reader does |
| `EventStream.ParsedIsExpressible` | internal/sse/broker.go:134 | no stream whatever carries an event with an empty type, a line break in the type or a CR in the data |
| `CheckerSafety.EveryInterleavingIsSafe` | internal/urlcheck/checker.go:87-158 | in every interleaving, overlapping calls on one id and a start that could not list the rows included: no stop channel is closed twice, every entry has an open one of its own, every result in a summary is of its check, and the history is the newest twenty stored, headed by the last result |
| `CheckerOwnership.OneRoutinePerEnabledRow` | internal/urlcheck/checker.go:74-100 | after Start, with calls per id serialised: a check no call works on has an entry only if its row is enabled, and then the entry holds that row; an enabled row has an entry unless Start could not list the rows; and the open stop channels are exactly those of the entries |
| `CheckerOwnership.RemovedForGood` | internal/urlcheck/checker.go:234-240 | once a delete has returned, no later step, stale stores included, brings the id back into either map |
| `CheckerSummaries.SummariesShowRows` | internal/urlcheck/checker.go:221-225 | in every serialised interleaving, a check that runs has a summary, and the summary of a check no call works on shows the row of the table: an update is seen when it returns |
| `CheckerOverlap.LeakIff` | internal/urlcheck/checker.go:87-100 | at the end of any run some channel is open that nothing can close if and only if some startCheck of the run found its id already in the map |
| `CheckerOverlap.ConcurrentUpdatesLeak` | internal/urlcheck/checker.go:215-230 | from any state in which an enabling update may begin, a run of two of them leaves such a channel |
| `CheckerOverlap.CanComeBackIff` | internal/urlcheck/checker.go:204-230 | at the moment the row of a check is gone: some continuation, overlapping calls included, shows the id in either map if and only if it is there now, a call in progress has an entry or summary of it still to write, or a request has read its row and not called Update yet |
| `CheckerOverlap.RowStaysGone` | internal/storage/schema.go:18 | in every run, overlapping calls included, the row of a deleted check never returns, and its id is not given out again |
| `CheckerOverlap.OverlapBringsBack` | internal/urlcheck/checker.go:215-240 | a run in which an update that began before a delete brings the deleted id back into both maps |
| `CheckerHistory.HistoryAgreesWithTable` | internal/urlcheck/checker.go:142-150 | for a check created in this run, with increasing times, succeeding insertions and no purge, the in-memory history equals the rows URLResultHistory(id, 20) answers |
| `CheckerHistory.AnswerIsLog` | internal/storage/sqlite.go:205-227 | any answer of that query lists the stored results in their order, row by row |
| `CheckerObject.Monitor.Start` | internal/urlcheck/checker.go:74-85 | every enabled row is started in turn; nothing is when the list cannot be read |
| `CheckerObject.StartedAre` | internal/urlcheck/checker.go:79-83 | after a start exactly the enabled rows have an entry and a summary, beside what was there |
| `CheckerObject.StartedHold` | internal/urlcheck/checker.go:79-94 | each new entry and summary is that of its row |
| `CheckerObject.StartedKeeps` | internal/urlcheck/checker.go:79-94 | a summary that was there is left alone, and so is the entry of a check that is not listed |
| `CheckerObject.Monitor.StartCheck` | internal/urlcheck/checker.go:87-100 | a new open channel, an entry, and a summary only if there was none |
| `CheckerObject.Monitor.StopCheck` | internal/urlcheck/checker.go:242-250 | the entry is gone and its channel closed, once |
| `CheckerObject.Monitor.Add` | internal/urlcheck/checker.go:197-212 | insert, fresh summary, start when enabled; nothing changes when the insertion fails |
| `CheckerObject.Monitor.Update` | internal/urlcheck/checker.go:215-231 | write the row, close the channel of the entry, start afresh when enabled; a summary that is there takes the new check and keeps its last result, uptime and history, every other is unchanged; nothing changes when the write fails |
| `CheckerObject.Monitor.Remove` | internal/urlcheck/checker.go:234-240 | stop, forget, delete the row; both maps forget the id even when the delete fails |
| `CheckerObject.AddIsARun` | internal/urlcheck/checker.go:197-212 | a create call is a run of the protocol |
| `CheckerObject.UpdateIsARun` | internal/urlcheck/checker.go:215-231 | an update call is a run of the protocol |
| `CheckerObject.RemoveIsARun` | internal/urlcheck/checker.go:234-240 | a delete call is a run of the protocol |
| `CheckerObject.StartIsARun` | internal/urlcheck/checker.go:74-85 | a start is a run of the protocol |
| `CheckerObject.ProbeIsARun` | internal/urlcheck/checker.go:125-152 | a probe from its outcome to its store is a run of the protocol |
| `CheckerObject.TurnIsARun` | internal/urlcheck/checker.go:113-122 | so is each turn of the select: a probe on the ticker, an exit otherwise |
| `CheckerObject.Monitor.CheckTurn` | internal/urlcheck/checker.go:113-122 | one turn of the select: a probe on the ticker, an exit on a closed stop channel or a done context |
| `CheckerObject.Monitor.Store` | internal/urlcheck/checker.go:142-152 | last result, uptime and trimmed history change together, and only if the summary is still there |
| `CheckerObject.Monitor.DoAndStore` | internal/urlcheck/checker.go:125-152 | the result is inserted if the statement succeeds and the check is there; if the summary is there it gets the result as last and at the head of at most twenty, and the uptime of the last day, zero when it cannot be read; nothing else changes and the goroutine waits |
| `CheckerObject.Monitor.Summaries` | internal/urlcheck/checker.go:253-262 | every summary exactly once |
| `Uptime.UptimeIsAPercentage` | internal/storage/sqlite.go:229-239 | the uptime is 0 over no results, lies between 0 and 100, and over some is 100 if and only if all are up and 0 if and only if none is |
| `Uptime.UptimeAfterInsert` | internal/storage/sqlite.go:229-239 | a further result inside a window of n turns u into (n * u + 100 or 0) / (n + 1) |
| `Uptime.UptimeElsewhere` | internal/storage/sqlite.go:229-239 | a result before the window or of another check leaves it alone |
| `Uptime.FailuresCount` | internal/storage/sqlite.go:273-291 | without events an address has no failures, and an event adds one if and only if it is a failed login from that address inside the window |
| `PurgeWindows.PurgeIsInvisible` | internal/storage/sqlite.go:43-57 | the same writes with purges at arbitrary times and without any give the same answers to ActiveAlerts, to URLUptime and to FailedSSHByIP over the last day |
| `PurgeWindows.UptimeWindowIff` | internal/storage/sqlite.go:229-239 | a purge leaves an uptime window alone in every database if and only if it starts within the last seven days |
| `PurgeWindows.SameFailures` | internal/storage/sqlite.go:273-291 | the possible answers to FailedSSHByIP are the same within thirty days |
| `PurgeWindows.RunsStayThinned` | internal/storage/sqlite.go:43-57 | over whole runs the purged database is the other less results, login events and tunnel events already too old and alerts already resolved |
| `Storage.DB.ActiveAlerts` | internal/storage/sqlite.go:82-91 | all unresolved rows, each once, latest first |
| `Storage.DB.GetThresholds` | internal/storage/sqlite.go:327-343 | the loop over the rows rebuilds the table |
| `Database.PurgeDeletesExactly` | internal/storage/sqlite.go:43-57 | after the first n statements a row is gone if and only if it is a result checked more than 7 days before, a login or tunnel event of more than 30 days before, or an alert resolved more than 14 days before, each from its statement on; every other row is unchanged |
| `Storage.DB.Purge` | internal/storage/sqlite.go:43-57 | the four deletions in turn, ended by the first that fails, with exactly that effect |
| `Storage.DB.InsertAlert` | internal/storage/sqlite.go:61-70 | a new row under the next id, or nothing |
| `Storage.DB.ResolveAlert` | internal/storage/sqlite.go:72-75 | the row is marked resolved at the given time if it is there, and no other changes |
| `Storage.DB.AcknowledgeAlert` | internal/storage/sqlite.go:77-80 | the row is marked acknowledged if it is there, and no other changes |
| `Storage.DB.SetThreshold` | internal/storage/sqlite.go:345-348 | one threshold is set |
| `Storage.DB.InsertURLCheck` | internal/storage/sqlite.go:123-136 | a new row under the next id, refused when the url is taken |
| `Storage.DB.UpdateURLCheck` | internal/storage/sqlite.go:138-148 | an existing row is replaced unless its url is another's; a missing row is no error |
| `Storage.DB.DeleteURLCheck` | internal/storage/sqlite.go:150-153 | the row is gone, and so is exactly every result of it |
| `Storage.DB.InsertURLResult` | internal/storage/sqlite.go:193-203 | a new row if the check still exists |
| `AuthLog.IncrementalEqualsBatch` | internal/security/authlog.go:75-90 | for every schedule of appended whole lines under the token limit, the events of all polls equal one parse of the whole file, and the offset is its length |
| `AuthLog.RotationsIngestOnce` | internal/security/authlog.go:66-90 | across rotations that are seen, every generation is ingested exactly once, in order |
| `AuthLog.PollsEqualBatchIff` | internal/security/authlog.go:75-90 | any number of polls of a growing file ingest what one pass would, whatever lines mean, if and only if no poll stops in the middle of a line that goes on later |
| `AuthLog.MidLineSplitAddsALine` | internal/security/authlog.go:80-89 | two polls that split a line read one line more than a single pass |
| `AuthLog.SplitIsHarmlessIff` | internal/security/authlog.go:80-89 | two polls that split a file whose lines fit the buffer read the lines of one pass at a line end, and one line more anywhere else |
| `AuthLog.UnseenRotationSkipsHead` | internal/security/authlog.go:71-73 | for any new file not smaller than the offset: of the line at the offset only the part from the offset on is read, as a line of its own, then the rest; nothing is lost or changed if and only if that part yields what everything up to that line's end does |
| `AuthLog.PollReadsFileIff` | internal/security/authlog.go:71-86 | a poll ingests exactly what one pass over the file would, whatever lines mean, if and only if it starts the file over or skips only the CR of an empty first line that ends in CR LF |
| `AuthLog.MidLineRotationLoses` | internal/security/authlog.go:71-73 | a file whose skipped head holds no event of its own and whose only event is lost, because the offset falls inside its line |
| `AuthLog.ScanAppend` | internal/security/authlog.go:80-86 | scanning is a homomorphism at line ends |
| `AuthLog.LineByLine` | internal/security/authlog.go:80-86 | a line and its newline are read as that line less a final CR, and what follows is read on its own |
| `AuthLog.UnendedLine` | internal/security/authlog.go:80-86 | the last line may lack its newline |
| `AuthLog.LongLineStops` | internal/security/authlog.go:80-90 | a line that does not end within 65536 bytes ends the pass with an error after those bytes |
| `AuthLog.Parser.Parse` | internal/security/authlog.go:51-91 | offset, warning, events and error after a poll, for a missing, unreadable or readable log and failing insertions |
| `CaseFold.FindCI` | internal/security/authlog.go:169-187 | true if and only if some window of the text, folded, is the needle; all indices in bounds |
| `CaseFold.ContainsCI` | internal/security/authlog.go:165-167 | the length guard never changes the answer |
| `CaseFold.CaseInsensitiveIffLowerNeedle` | internal/security/authlog.go:169-187 | this is case-insensitive containment for all texts if and only if the needle has no upper-case letter |
| `CaseFold.UpperNeedleNeverMatches` | internal/security/authlog.go:173-180 | a needle with an upper-case letter is never found |
| `Decimal.Itoa` | internal/metrics/network.go:67-79 | for every uint32 the position stays in the buffer and the result has 1 to 10 digits, no leading zero except "0", and reads back as the number |
| `Decimal.NumeralsAreUnique` | internal/metrics/network.go:67-79 | that numeral is the only one there is, so the printer is injective |
| `Decimal.SignedInjective` | internal/alerts/alerts.go:150 | distinct ids print differently |

## Left out

- HTTP handlers, routing, authentication, JSON and flags: plumbing over libraries. From them comes only that an update is of a row that was read before (`SerialStep`), and that two calls on one id may overlap.
- System, application, service and tunnel collectors, and the connection counters of `CollectNetwork`: calls into the operating system.
- The network call of a probe: any outcome, carrying the id of its check.
- The regular expressions and timestamps of the auth log: a parameter from a line to an optional event, with the year fixed.
- SQLite: a statement is its effect on a table, and a failing statement has none. Rows are keyed by their AUTOINCREMENT value; 64-bit overflow of that counter is not modelled. `created_at` and the order it gives to the list of checks are left open.
- Alert texts: a message is the data its format string is filled with. Values are reals, so float rounding is not modelled. Times are in whole seconds, as the tables store them.
- Timers and waiting: a tick, a heartbeat or a cancellation may come at any moment.
- The relay of probe results (`ResultCh`) and the recent-rows queries: they add no state.
- Concurrent updates of one threshold: the database write and the map write of `UpdateThreshold` are one step, so two overlapping updates that end with different values in memory and table are not modelled.
- An evaluation inside `AlertRuns` is one call, and so is the load of a restart; `Collector` is where other steps come between its iterations.
- A client whose connection cannot stream, which the handler turns away at once.
- AlertEngine.Engine.LoadThresholds: the two locked sections are one step.
- CheckerOwnership.OneRoutinePerEnabledRow: says nothing about enabled rows after a start that could not list the rows; they wait for their next update. It counts open stop channels and not live goroutines, because a goroutine started by a request also ends with that request.
- CheckerOverlap.CanComeBackIff: the read of the row and the call of Update are two moments of one request; which ids have been read at the moment of the delete is a parameter, and a later request reads and begins its update in one step.
- CheckerHistory.HistoryAgreesWithTable: says nothing while a result of the check is between its insertion and its store, since the table is then ahead of the memory.
- BrokerDelivery.WireDelivers: characters are code points; the encoding of text as bytes is not modelled.

# Verification model of the log pipeline

Soigineer takes logs in through a gateway and Kafka, stores them in ClickHouse, raises alerts and incidents,
and shows both live over websockets. This project models the parts with branching, failure handling and state,
and proves what they promise. Check it with `dafny verify dfyconfig.toml`.

Wherever the original calls a database, a broker, Redis, a clock or a random source, the model takes the outcome
as a parameter, and the theorems hold for every value of it: a failed call may have had no effect, its full effect
or, for batches, the effect of any subset. Runs are lists of actions chosen freely among the enabled ones, so a
theorem about all lists is a theorem about all interleavings, crashes and restarts. Code that updates state is a
class or a loop proved equal to a function on values, and the theorems are about that function.

- `Text`, `Scan`, `Patterns`, `Normalize`: `ReplaceAllString` for expressions of the shape `\bR\b` over any token
  language, the five patterns of the normaliser, and normalisation as a whole (idempotent, word by word).
- `Fingerprint`: classification and the string that is hashed, which is uniquely decodable.
- `Events`, `LogTable`, `Processing`, `Contents`: conversions, the deduplicating `Save`, `ProcessLog`, and what its
  rows, alerts and published events carry.
- `RawLogConsumer`, `Pipeline`, `CommitSafety`, `ConsumerRuns`, `Progress`, `Shutdown`: the batching consumer as a
  state machine; what every step keeps; exactly-once effect on the table; when committed offsets are safe, as an
  if-and-only-if; that the log end can be reached from every state; and that a shutdown settles what was drained.
- `Subscription`, `Hub`, `HubRuns`: who may see what; the hub with slow-client eviction and shutdown, proved equal to
  a state machine; and delivery over its runs, from publisher to channel and without gaps.
- `Dedup`, `Incidents`, `Alerting`, `AlertConsumer`: dispatch rate, the incident as a fold of its history, retry
  accounting, and the alert consumer.
- `RefreshTokens`, `AuthService`: token rotation and the chains that the rows form.
- `Access`, `LogQuery`, `IncidentQuery`: the access-controlled filters and what they select.
- `LoadGenerator`, `InsertObserver`: the simulator's batching and its observer's conservation law.

Properties that turned out not to hold of the code are kept as theorems with the exact condition:

- An undecodable payload is committed at once, ahead of earlier messages of its partition that are still in the
  batch (`rawLogConsumer.go:186`). `CommitSafety.AlwaysSafeIffClear` says exactly which runs stay safe, and
  `ConsumerRuns.EarlyCommitLosesTheEvent` is a run that loses an event for good.
- A record that fails after the deduplication key was set loses the dispatch: `Alerting.RetryOffersIff` and
  `Alerting.RetryCanLoseTheDispatch`; `Alerting.HandledAlertIsLostIff` says when, from the attempts alone.
- The log filter and the incident filter disagree with the hub for a principal who holds an untrimmed application
  name and asks for no application: `LogQuery.EndpointsAgreeIff`, `IncidentQuery.IncidentFilterMeansDeliveryIff`.
- First-seen is the time of the first record, not the earliest time: `Incidents.FirstSeenIsEarliestIff`.
- A field that is one token does not always become the word of that token: `Normalize.TokenBecomesItsWordIff`.
- A refresh whose user lookup fails after the rotation has spent the session's token:
  `AuthService.RefreshSpendsTokenIff` and `AuthService.LateFailureLosesTheSession`.
- A cancelled observation can leave batches out of both counts, and a failed one always does:
  `InsertObserver.ObservationConserves` and `InsertObserver.CancellationCanMissABatch`.
- Fingerprint pre-images can collide for levels that the gateway would not accept: `Fingerprint.UniquelyDecodableIff`
  says for which, and `Fingerprint.FreeLevelsCollide` is an instance.

## Model

| member | source | states |
|---|---|---|
| Scan.ScanRemovesMatches | backend/internal/processing/service/normalize.go:23-27 | for any token language of the shape `\bR\b`, one replacement pass leaves no match of its own language and creates none of any other |
| Scan.ScanIsIdentityIff | backend/internal/processing/service/normalize.go:23-27 | a pass leaves a text alone if and only if nothing in it matches |
| Scan.ScanSplitsAt | backend/internal/processing/service/normalize.go:20-27 | a pass over two texts around a space or a brace is the two passes around it |
| Scan.WordStays | backend/internal/processing/service/normalize.go:23-27 | a braced replacement word that is already in a text survives every later pass |
| Scan.ScanOfToken | backend/internal/processing/service/normalize.go:23-27 | a text that is one token from end to end becomes the replacement word |
| Patterns.PatternIsTokenLang | backend/internal/processing/service/normalize.go:9-13 | the five expressions are token languages: their words hold no space and no brace and end in a word character |
| Patterns.InnerIsSilent | backend/internal/processing/service/normalize.go:9-27 | no part of any of the five replacement words is matched by any of the five expressions |
| Patterns.LowerKeepsLang | backend/internal/processing/service/normalize.go:9-21 | lower-casing a token of a pattern gives a token of the same pattern |
| Normalize.NothingLeftToReplace | backend/internal/processing/service/normalize.go:23-27 | after the five passes none of the five patterns matches anywhere |
| Normalize.PassesAreIdentityIff | backend/internal/processing/service/normalize.go:23-27 | the five passes leave a text alone if and only if no pattern matches in it |
| Normalize.NormalizesWordByWord | backend/internal/processing/service/normalize.go:16-30 | the normal form is the space-joined normal forms of the separate fields |
| Normalize.SameNormalFormIff | backend/internal/processing/service/normalize.go:16-30 | two messages share a normal form if and only if they have equally many fields with pairwise equal normal forms |
| Normalize.NormalizationIsIdempotent | backend/internal/processing/service/normalize.go:16-30 | normalising a normal form changes nothing, for every message |
| Normalize.NormalFormHasNoUpper | backend/internal/processing/service/normalize.go:19-29 | a normal form holds no upper-case ASCII letter |
| Normalize.TokenBecomesItsWord | backend/internal/processing/service/normalize.go:21-27 | a field that is one token becomes the word of that pattern when it starts with a word character, is no number of 16 or more digits and no address that holds a UUID |
| Normalize.TokenBecomesItsWordIff | backend/internal/processing/service/normalize.go:21-27 | a field that is one token of a pattern becomes exactly the word of that pattern if and only if it meets those conditions |
| Normalize.MaskOfToken | backend/internal/processing/service/normalize.go:23-27 | the five words, letter by letter, for a field that meets those conditions |
| Normalize.MaskedFieldsDoNotMatter | backend/internal/processing/service/normalize.go:16-30 | messages that differ only in such fields of the same kind have one normal form |
| Normalize.ShortWordStays | backend/internal/processing/service/normalize.go:16-30 | a field of fewer than 16 letters is only lower-cased |
| Normalize.NumberedMessage | backend/internal/processing/service/normalize.go:16-30 | word, number, word: the number becomes `{number}`, whatever its digits, and the words are lower-cased |
| Fingerprint.ContainsAny | backend/internal/processing/service/classifyLogError.go:17-24 | true if and only if one of the keywords occurs in the text |
| Fingerprint.Classify | backend/internal/processing/service/classifyLogError.go:26-42 | a keyword of the returned category occurs, and none of an earlier category does |
| Fingerprint.UniquelyDecodableIff | backend/internal/processing/service/generateFingerprint.go:8-12 | for any set of levels: over classifier categories and texts without upper-case letters every joined string decodes uniquely, bars or not, if and only if no level is some text, a bar and another level |
| Fingerprint.PreImageIsUniquelyDecodable | backend/internal/processing/service/generateFingerprint.go:8-12 | over the gateway levels, equal joined strings mean equal application, level, category and message |
| Fingerprint.SameFingerprintIff | backend/internal/processing/service/generateFingerprint.go:8-12 | two logs get the same fingerprint if and only if application, level and normal form agree |
| Fingerprint.FreeLevelsCollide | backend/internal/processing/service/generateFingerprint.go:8-12 | two logs with different applications and levels share the joined string when one level ends in a bar and the other, whatever category and message |
| LogTable.ClickHouseLogRepo.ExistingEventIds | backend/internal/processing/repository/clickhouseRepo.go:120-155 | returns exactly the asked ids that the table holds |
| LogTable.ClickHouseLogRepo.FilterNewLogs | backend/internal/processing/repository/clickhouseRepo.go:80-118 | fails only when a needed query fails; otherwise the order-preserving first-occurrence filter against the table |
| LogTable.NewLogsAreFresh | backend/internal/processing/repository/clickhouseRepo.go:100-117 | what passes the filter has non-empty ids that are unknown and pairwise different |
| LogTable.UnknownIdSurvives | backend/internal/processing/repository/clickhouseRepo.go:100-117 | every id of the batch that the table lacks passes the filter |
| LogTable.LogsWithoutIdPass | backend/internal/processing/repository/clickhouseRepo.go:100-117 | logs without an id all pass the filter, in order |
| LogTable.FirstOccurrencePasses | backend/internal/processing/repository/clickhouseRepo.go:100-117 | of the logs with an id exactly those pass whose id is unknown and that are the first of the batch with it |
| LogTable.ClickHouseLogRepo.Send | backend/internal/processing/repository/clickhouseRepo.go:73-75 | a failed send may have persisted any subset of the batch, in order |
| LogTable.ClickHouseLogRepo.Save | backend/internal/processing/repository/clickhouseRepo.go:25-78 | table and result are those of the specification for every combination of failing calls |
| LogTable.SaveKeepsUnique | backend/internal/processing/repository/clickhouseRepo.go:25-118 | whatever fails, no non-empty EventID appears twice |
| LogTable.SaveAddsOnlyItsBatch | backend/internal/processing/repository/clickhouseRepo.go:25-118 | earlier rows stay in place, and every added row is that of a log of the batch |
| LogTable.SaveStoresEachIdOnce | backend/internal/processing/repository/clickhouseRepo.go:25-118 | after a successful save each non-empty id of the batch is in the table exactly once |
| LogTable.SaveSucceedsIff | backend/internal/processing/repository/clickhouseRepo.go:25-78 | a save succeeds if and only if the calls that it needs do; it then appends the rows of the new logs, and until the batch is sent a failure leaves the table as it was |
| LogTable.SaveStoresLogsWithoutId | backend/internal/processing/repository/clickhouseRepo.go:25-118 | a successful save stores every log without an id, in order, behind the rows that were there |
| LogTable.SavesKeepUnique | backend/internal/processing/repository/clickhouseRepo.go:25-118 | non-empty EventIDs stay unique over any sequence of saves by one writer |
| Processing.ProcessingService.ProduceAlerts | backend/internal/processing/service/process.go:105-125 | skips invalid events, alerts serious ones in order, and stops at the first failed alert |
| Processing.ProcessingService.PublishProcessed | backend/internal/processing/service/process.go:136-145 | publishes the processed form of every model in order |
| Processing.ProcessingService.ProcessLog | backend/internal/processing/service/process.go:100-146 | stores and result are those of the staged specification: alerts, then table, then topic |
| Processing.AlertProducer.ProduceAlert | backend/internal/processing/service/process.go:119-122 | a failed write may still have reached the topic |
| Processing.ProcessOnlyAdds | backend/internal/processing/service/process.go:100-146 | a batch only appends to the table and the topics, whatever fails |
| Processing.ProcessKeepsStageOrder | backend/internal/processing/service/process.go:107-145 | a batch keeps both orders: a serious row has its alert, a published event has its row |
| Processing.ProcessedBatchIsHandled | backend/internal/processing/service/process.go:100-146 | when nil is returned every valid event of the batch is stored, republished and, when serious, alerted |
| Contents.ModelCarriesEvent | backend/internal/processing/service/process.go:39-98 | an event has a model if and only if both its times parse; its row, alert and published event then carry, field by field, the values of the event, its normal form, its category and the fingerprint of application, level and message |
| Contents.ProcessedBatchContents | backend/internal/processing/service/process.go:100-146 | when nil is returned, the published events are those of the batch whose times parse, the alerts those of the urgent ones, each once and in order, with these values |
| Contents.ProcessStages | backend/internal/processing/service/process.go:107-145 | a failed alert stores and publishes nothing, a failed save publishes nothing, and nil is returned if and only if no stage that was needed failed |
| Contents.RunStoresCarry | backend/internal/processing/service/process.go:100-146 | in every run of the consumer each row, alert and published event carries the values of an event of the log |
| Contents.RowsShareFingerprintIff | backend/internal/processing/service/process.go:55-67 | in every run two stored rows with gateway levels share a fingerprint if and only if application, level and normal form agree |
| RawLogConsumer.NewConfig | backend/internal/processing/delivery/rawLogConsumer.go:46-64 | row, byte and buffer limits that are not positive become 1000 rows, 4 MiB and twice the row limit, others are kept |
| RawLogConsumer.LogConsumer.FlushBatch | backend/internal/processing/delivery/rawLogConsumer.go:112-147 | process, then commit; the batch is cleared only when both succeed |
| RawLogConsumer.LogConsumer.ReceiveMessage | backend/internal/processing/delivery/rawLogConsumer.go:172-199 | closed channel: final flush and stop; undecodable: commit at once; otherwise append to the batch |
| RawLogConsumer.LogConsumer.Iterate | backend/internal/processing/delivery/rawLogConsumer.go:155-207 | one turn of the loop: limit flush before the select, then the case that fires |
| RawLogConsumer.LogConsumer.FetchNext | backend/internal/processing/delivery/rawLogConsumer.go:213-221 | the fetch goroutine takes the next message of some partition |
| RawLogConsumer.LogConsumer.EnqueueMessage | backend/internal/processing/delivery/rawLogConsumer.go:223-227 | a fetched message enters the channel only when it has room |
| RawLogConsumer.LogConsumer.CrashAndRestart | backend/internal/processing/delivery/rawLogConsumer.go:86-96 | a new process starts with empty memory at the committed offsets |
| RawLogConsumer.LogConsumer.Start | backend/internal/processing/delivery/rawLogConsumer.go:86-229 | any schedule of fetching, looping, cancelling and crashing leads to the state of the specification |
| Pipeline.StepKeepsInv | backend/internal/processing/delivery/rawLogConsumer.go:155-229 | every action keeps the invariant: mirrored batch, limits, ordered pending messages, only settled messages committed, sound stores |
| Pipeline.RunKeepsInv | backend/internal/processing/delivery/rawLogConsumer.go:86-229 | the invariant holds in every reachable state |
| Pipeline.TableHoldsEachValidEventAtMostOnce | backend/internal/processing/delivery/rawLogConsumer.go:112-229 | with distinct non-empty ids the table holds only rows of valid events of the log and none twice, after any run |
| Pipeline.StageOrderInEveryRun | backend/internal/processing/service/process.go:107-145 | in every reachable state each serious row has its alert and each published event has its row |
| Pipeline.OnlySettledMessagesAreCommitted | backend/internal/processing/delivery/rawLogConsumer.go:120-147 | every message handed to a commit is undecodable or was processed before |
| Pipeline.BatchIsBoundedInEveryRun | backend/internal/processing/delivery/rawLogConsumer.go:90-100 | events mirror messages one for one, bytes are the sum of the sizes, and with a live context rows and bytes stay within the limits |
| CommitSafety.InvalidCommitSafeIff | backend/internal/processing/delivery/rawLogConsumer.go:178-195 | the early commit keeps offsets safe if and only if no batch message of that partition is unsettled |
| CommitSafety.StepSafeIff | backend/internal/processing/delivery/rawLogConsumer.go:155-229 | from a safe state a step leads to safe offsets if and only if it commits no undecodable message ahead of an unsettled one |
| CommitSafety.AlwaysSafeIffClear | backend/internal/processing/delivery/rawLogConsumer.go:112-229 | a run keeps everything below the committed offsets undecodable, invalid, or saved and republished at all times if and only if none of its steps is such an early commit |
| CommitSafety.TableEqualsOnePass | backend/internal/processing/delivery/rawLogConsumer.go:112-229 | when the committed offsets reach the log end, the table equals that of a one-pass sequential processor, as a multiset of rows |
| CommitSafety.DecodableLogIsClear | backend/internal/processing/delivery/rawLogConsumer.go:178-195 | on a log of decodable messages no run commits early |
| CommitSafety.DecodableTableEqualsOnePass | backend/internal/processing/delivery/rawLogConsumer.go:112-229 | the same equality after any run of failures, crashes and redeliveries on a decodable log |
| Progress.EndIsReachable | backend/internal/processing/delivery/rawLogConsumer.go:86-229 | from every reachable state some continuation brings every committed offset to the log end without an early commit |
| Progress.TableCanAlwaysBeCompleted | backend/internal/processing/delivery/rawLogConsumer.go:86-229 | every run without an early commit can be continued until the table equals that of the one-pass processor |
| ConsumerRuns.EarlyCommitLosesTheEvent | backend/internal/processing/delivery/rawLogConsumer.go:178-195 | for every valid event there is a run that commits to the log end and, however it goes on, never stores it |
| ConsumerRuns.DrainIsExact | backend/internal/processing/delivery/rawLogConsumer.go:165-176 | once fetching has stopped, the loop returns after exactly the buffered number of receives plus one |
| ConsumerRuns.ExitedFetchIsDraining | backend/internal/processing/delivery/rawLogConsumer.go:210-229 | a closed channel implies cancellation and no message in hand |
| Shutdown.FlushOfBatch | backend/internal/processing/delivery/rawLogConsumer.go:112-147 | a flush without a failing call hands exactly the messages of the batch to a commit, leaves every event of it handled, and empties the batch |
| Shutdown.FaultFreeFlushSucceeds | backend/internal/processing/delivery/rawLogConsumer.go:112-147 | a flush in which no call fails is one of these |
| Shutdown.FailedFlushKeepsBatch | backend/internal/processing/delivery/rawLogConsumer.go:120-140 | a failing flush keeps the whole batch, and commits nothing when processing failed |
| Shutdown.FinalFlushSettles | backend/internal/processing/delivery/rawLogConsumer.go:149-176 | on the closed and empty channel the loop flushes what is left, whatever its size, and stops |
| Shutdown.FinalFlushStops | backend/internal/processing/delivery/rawLogConsumer.go:149-176 | a failing final flush stops the loop all the same |
| Shutdown.LimitFlushSettles | backend/internal/processing/delivery/rawLogConsumer.go:156-163 | with a live context a batch that is full by rows or by bytes is flushed before anything else |
| Shutdown.TickFlushSettles | backend/internal/processing/delivery/rawLogConsumer.go:201-206 | a tick flushes a batch of any length, as long as the shutdown was not seen |
| Shutdown.SeenShutdownSilencesTicks | backend/internal/processing/delivery/rawLogConsumer.go:166-170 | once the loop has seen the end of the context, ticks change nothing |
| Shutdown.ChannelIsBounded | backend/internal/processing/delivery/rawLogConsumer.go:87-88 | in every run at most `messageBuffer` messages wait in the channel |
| Shutdown.ShutdownSettlesEverything | backend/internal/processing/delivery/rawLogConsumer.go:155-229 | in every run: from the moment fetching has stopped, a process that does not crash and whose final flush does not fail stops with every drained message settled and handed to a commit, and the decodable ones below the offset of their partition, even if earlier flushes failed |
| Shutdown.CancelEndsFetching | backend/internal/processing/delivery/rawLogConsumer.go:213-227 | fetching ends when the context is cancelled, and only then; the message in hand is dropped |
| Shutdown.CancellationCanSettleEverything | backend/internal/processing/delivery/rawLogConsumer.go:155-229 | from every reachable state of a running process, cancellation and one receive more than the channel holds stop it with the whole batch and the whole channel settled and handed to a commit |
| Hub.Client.TrySend | backend/internal/realtime/service/hub.go:166-170 | a send to an open channel succeeds if and only if the buffer has room |
| Hub.Hub.HandleRegister | backend/internal/realtime/service/hub.go:52-57 | the new client joins the map of its stream with its window starting now; nothing else changes |
| Hub.Hub.RemoveClient | backend/internal/realtime/service/hub.go:91-103 | a registered client leaves its map, its channel is closed and its window ends now; any other client is left alone |
| Hub.Hub.SendTo | backend/internal/realtime/service/hub.go:157-171 | one client is skipped, served, or evicted when its buffer is full |
| Hub.Hub.SendToAll | backend/internal/realtime/service/hub.go:157-171 | for every order of the map each of its clients is skipped, served or evicted, and no other client is touched |
| Hub.Hub.Broadcast | backend/internal/realtime/service/hub.go:151-195 | the whole new state: the event is in the history, the clients are as after the loop, or nothing changed when it cannot be encoded |
| Hub.Hub.Shutdown | backend/internal/realtime/service/hub.go:68-71 | both maps end empty and each of their clients is closed where the history ends, with its buffer kept |
| Hub.Hub.ShutdownClosesAll | backend/internal/realtime/service/hub.go:105-115 | after shutdown the channel of every accepted client is closed |
| Hub.Hub.Publish | backend/internal/realtime/service/hub.go:117-149 | refused when the hub was done at the first check; otherwise queued if and only if fewer than 1024 logs, or 256 alerts, wait and the second select does not give up |
| Hub.Hub.TakeNext | backend/internal/realtime/service/hub.go:62-66 | the whole new state: the oldest queued event is taken and broadcast, nothing else changes |
| Hub.Hub.WriteLoopTakes | backend/internal/realtime/service/client.go:72-83 | the write loop takes the oldest buffered message, also from a closed channel |
| Hub.Hub.Act | backend/internal/realtime/service/hub.go:49-115 | the whole new state of each action is that of the state machine; no channel is closed twice or sent to after closing |
| Hub.Hub.Run | backend/internal/realtime/service/hub.go:49-115 | for every interleaving in which each client registers once the state is that of the state machine after the script |
| Hub.StepKeepsInv | backend/internal/realtime/service/hub.go:49-195 | every action keeps, for each client ever accepted, gap-free delivery and a channel that is closed exactly when the client is in no map |
| Hub.BroadcastKeepsOk | backend/internal/realtime/service/hub.go:151-195 | a broadcast extends the window of a client that keeps up and ends the window of one that does not |
| HubRuns.RunKeepsInv | backend/internal/realtime/service/hub.go:49-195 | the same in every reachable state of every run in which each client registers once |
| HubRuns.StepOfRegistered | backend/internal/realtime/service/hub.go:59-71 | a registered client leaves its map if and only if it is unregistered, the hub ends, or an event that it wants finds its buffer full; its window start never moves and its end is the history then |
| HubRuns.StepOfLeft | backend/internal/realtime/service/hub.go:91-103 | a client in no map is never put back, its window is frozen and nothing more enters its channel |
| HubRuns.StepOnlyAdds | backend/internal/realtime/service/hub.go:151-195 | what entered a channel and what was taken from it only grow |
| HubRuns.HistoriesGrow | backend/internal/realtime/service/hub.go:151-195 | the history of a stream only grows over a run |
| HubRuns.RegisteredClientMissesNothing | backend/internal/realtime/service/hub.go:151-195 | in every run a client still registered was sent exactly the matching and authorised events broadcast since its registration, in order, and its channel is open |
| HubRuns.FormerClientMissedNothing | backend/internal/realtime/service/hub.go:151-195 | a client that left was removed by one action, was sent exactly the matching and authorised events broadcast between registration and that action, and its channel is closed |
| HubRuns.NoGapInRun | backend/internal/realtime/service/hub.go:151-195 | in every run each wanted event of a window entered the channel right after all the wanted events before it |
| HubRuns.ClosedAfterTheEnd | backend/internal/realtime/service/hub.go:68-71 | in every run, once the hub is done every accepted client is closed |
| HubRuns.BroadcastsArePublications | backend/internal/realtime/service/hub.go:117-149 | what was published on a stream is what was taken, in order, followed by what is queued, and the history is what was taken and could be encoded |
| HubRuns.RegistrationAccepts | backend/internal/realtime/service/hub.go:50-57 | a running hub puts a new client into the map of its stream alone, with an open and empty channel, and leaves all others as they were |
| HubRuns.RoomMeansQueued | backend/internal/realtime/service/hub.go:117-149 | a running hub refuses no publication that there is room for, and appends it to the queue of its stream |
| HubRuns.TakeServes | backend/internal/realtime/service/hub.go:62-66 | a registered client with room for an event that it wants gets it when it is taken, behind what its channel holds; one that does not want it keeps its channel as it is |
| HubRuns.PublicationArrives | backend/internal/realtime/service/hub.go:117-195 | a publication enters the channel of a registered client that wants it once the queue ahead of it has been taken, when queue and client have room |
| HubRuns.PublishedEventIsDelivered | backend/internal/realtime/service/hub.go:117-195 | in every run an event that was accepted after a client joined, that the client wants, and that was taken and could be encoded entered the channel of the client if it is still registered |
| HubRuns.WriteTakesTheOldest | backend/internal/realtime/service/client.go:72-83 | the write loop hands over what is buffered, oldest first |
| HubRuns.CancelEnds | backend/internal/realtime/service/hub.go:68-71 | when the context ends both maps are emptied and each of their clients is closed with its buffer kept |
| HubRuns.EndIsFinal | backend/internal/realtime/service/hub.go:68-132 | after the end nobody is accepted and nothing is broadcast any more |
| Subscription.WhatIsWanted | backend/internal/realtime/service/subscription.go:25-56 | an event is delivered if and only if its application and level are listed where a list was given, and, under access rules, the principal is an admin or holds the application |
| Dedup.Deduplicator.ShouldDispatch | backend/internal/alerting/infrastructure/redis/deduplicator.go:29-51 | keys and answer are those of SETNX with the window when positive, else the configured period |
| Dedup.NewSettings | backend/internal/alerting/infrastructure/redis/deduplicator.go:18-27 | a period that is not positive becomes one minute, any other is kept |
| Dedup.DispatchesAreSpaced | backend/internal/alerting/infrastructure/redis/deduplicator.go:29-51 | two dispatches of one fingerprint are at least the first one's period apart, over any calls in between |
| Dedup.FirstCallDispatches | backend/internal/alerting/infrastructure/redis/deduplicator.go:29-51 | the first answered call for a fingerprint dispatches |
| Dedup.DispatchesIff | backend/internal/alerting/infrastructure/redis/deduplicator.go:29-51 | a call dispatches if and only if it is answered and no earlier call that created the key of the fingerprint, answered or not, keeps it quiet at that time |
| Dedup.DispatchRateIsBounded | backend/internal/alerting/infrastructure/redis/deduplicator.go:29-51 | with every period in force at least w, at most L/w + 1 dispatches of a fingerprint fall in an interval of length L |
| Incidents.BuildIncidentTitle | backend/internal/alerting/infrastructure/postgres/incident_recorder.go:116-128 | at most 160 characters; the full title when it fits, otherwise a prefix of it and three dots |
| Incidents.IncidentStore.RecordAlert | backend/internal/alerting/infrastructure/postgres/incident_recorder.go:26-114 | one upsert or no change at all; an error may hide an upsert that was committed |
| Incidents.IncidentStore.UpdateIncidentStatus | backend/internal/monitoring/repository/postgres_reader.go:168-194 | sets the status of an existing incident; tells an error of the database, with or without effect, from a missing row |
| Incidents.StateIsFoldOfHistory | backend/internal/alerting/infrastructure/postgres/incident_recorder.go:68-107 | an incident exists if and only if it was recorded; occurrences, suppressed, first-seen, last-seen and description are those of its records, whatever status updates came in between |
| Incidents.IncidentDescription | backend/internal/alerting/infrastructure/postgres/incident_recorder.go:36-107 | application, level, category and title are those of the last record, a blank category counting as the default one |
| Incidents.IncidentTimes | backend/internal/alerting/infrastructure/postgres/incident_recorder.go:31-34 | a record without a timestamp counts with the time it was made, for first-seen and last-seen |
| Incidents.CountersAreConsistent | backend/internal/alerting/infrastructure/postgres/incident_recorder.go:83-92 | suppressed never exceeds occurrences, and last-seen is at least first-seen |
| Incidents.StatusIff | backend/internal/alerting/infrastructure/postgres/incident_recorder.go:92-95 | resolved, or acknowledged, if and only if an update said so and nothing undid it: no later record after resolving, no later update |
| Incidents.FirstSeenIsEarliestIff | backend/internal/alerting/infrastructure/postgres/incident_recorder.go:83-90 | for every history, first-seen is at most every record's time if and only if no record is earlier than the first one |
| Incidents.FirstSeenIsNotTheMinimum | backend/internal/alerting/infrastructure/postgres/incident_recorder.go:83-90 | an earlier timestamp that arrives later leaves first-seen as it was |
| Alerting.AlertingService.HandleAlert | backend/internal/alerting/service/alert.go:72-126 | stores and result are those of the staged specification: rule, deduplication, record, publisher, notifiers |
| Alerting.AlertingService.Dispatch | backend/internal/alerting/service/alert.go:112-125 | the publisher is offered the alert once, each notifier once when enabled |
| Alerting.AlertingService.ProcessWithRetry | backend/internal/alerting/delivery/alertConsumer.go:104-136 | attempts run until one returns nil or the context ends |
| Alerting.AttemptCounts | backend/internal/alerting/service/alert.go:81-104 | an attempt adds one occurrence when it returns nil, and otherwise only when its record was committed unnoticed |
| Alerting.AlertSucceedsIff | backend/internal/alerting/service/alert.go:72-126 | nil is returned if and only if the rule, the deduplication and the record, where they are used, did not fail |
| Alerting.AlertRecords | backend/internal/alerting/service/alert.go:85-104 | when nil is returned the incident was recorded as dispatched if and only if this call created the key; an error leaves the table as it was unless the record was committed without an acknowledgement |
| Alerting.AlertNotifies | backend/internal/alerting/service/alert.go:115-125 | each notifier is called once if and only if nil is returned, this call created the key and the rule has notifications on, as it has without a resolver |
| Alerting.RetryCounts | backend/internal/alerting/delivery/alertConsumer.go:104-136 | a handled alert adds one occurrence plus the unnoticed records, an abandoned one only the latter |
| Alerting.RetryOffersIff | backend/internal/alerting/delivery/alertConsumer.go:104-136 | the publisher is offered the alert, once, if and only if the attempt that returned nil was told that it created the key |
| Alerting.RetryRecords | backend/internal/alerting/delivery/alertConsumer.go:104-136 | with atomic records a handled alert leaves one record, that of the winning attempt, dispatched if and only if that attempt created the key; an abandoned one leaves none |
| Alerting.RetryNotifies | backend/internal/alerting/delivery/alertConsumer.go:104-136 | the notifiers of a handled alert are called by the winning attempt alone |
| Alerting.SuppressedEqualsUnoffered | backend/internal/alerting/service/alert.go:72-126 | with atomic records the suppressed count of an incident equals the handled alerts of its fingerprint that the publisher was not offered, over any stream of alerts and failures |
| Alerting.HandledAlertIsLostIff | backend/internal/alerting/delivery/alertConsumer.go:104-136 | when no key lives at the first attempt, a handled alert with its rule enabled misses the publisher if and only if an earlier attempt set the key and the winning attempt ran before that key expired |
| Alerting.OccurrencesEqualSuccesses | backend/internal/alerting/service/alert.go:72-126 | with atomic records, occurrences equal the successful calls over any stream of alerts and failures |
| Alerting.RetryCanLoseTheDispatch | backend/internal/alerting/service/alert.go:94-110 | a failed record after the key was set makes the retry suppress the alert |
| AlertConsumer.Consumer.HandleMessage | backend/internal/alerting/delivery/alertConsumer.go:65-100 | undecodable: commit; handled: commit; not handled: stop without committing |
| AlertConsumer.Consumer.Start | backend/internal/alerting/delivery/alertConsumer.go:58-102 | any script of fetches, failures and restarts leads to the state of the specification |
| AlertConsumer.CommittedAlertsWereHandled | backend/internal/alerting/delivery/alertConsumer.go:58-102 | in every run each alert below a committed offset was handled at least once |
| AlertConsumer.OccurrencesCountDeliveries | backend/internal/alerting/delivery/alertConsumer.go:58-102 | occurrences are at least the handled deliveries, and equal to them when records are atomic |
| AlertConsumer.CommitMovesOffset | backend/internal/alerting/delivery/alertConsumer.go:70-100 | an acknowledged commit moves the offset just past the message, for a handled alert and for an undecodable payload; a lost one leaves it, and other partitions stay |
| AlertConsumer.RestartResumes | backend/internal/alerting/delivery/alertConsumer.go:58-67 | a restarted consumer resumes from the committed offsets, and a cancelled fetch stops it |
| RefreshTokens.RefreshTokenRepository.SaveToken | backend/internal/auth/repository/refresh_token_repository.go:52-71 | inserts a fresh hash; an existing hash or a rollback changes nothing |
| RefreshTokens.RefreshTokenRepository.RotateToken | backend/internal/auth/repository/refresh_token_repository.go:73-131 | succeeds if and only if the old token is unrevoked and unexpired, the new hash is free and the commit is acknowledged; otherwise both rows stay as they were or both changes are committed |
| RefreshTokens.RefreshTokenRepository.RevokeToken | backend/internal/auth/repository/refresh_token_repository.go:133-152 | revokes an unrevoked row and nothing else |
| RefreshTokens.RowsFormChains | backend/internal/auth/repository/refresh_token_repository.go:52-152 | after any interleaving the rows form disjoint chains, one per login, each of one user, in which only the last token can be unrevoked |
| RefreshTokens.ReplacementsAreAcyclic | backend/internal/auth/repository/refresh_token_repository.go:90-101 | following replacements never returns, stays with one user, and leaves only revoked tokens behind |
| RefreshTokens.RevokedStays | backend/internal/auth/repository/refresh_token_repository.go:52-152 | rows are never removed, keep their user, and never change once revoked |
| RefreshTokens.RotatesAtMostOnce | backend/internal/auth/repository/refresh_token_repository.go:73-131 | no hash is rotated effectively twice in any interleaving |
| RefreshTokens.UnrevokedCount | backend/internal/auth/repository/refresh_token_repository.go:52-152 | the unrevoked rows number the logins minus the effective revocations |
| RefreshTokens.SessionGrowsIff | backend/internal/auth/repository/refresh_token_repository.go:73-131 | an operation changes a chain if and only if it effectively rotates the chain's last token |
| RefreshTokens.EndedSessionStaysEnded | backend/internal/auth/repository/refresh_token_repository.go:133-152 | a chain whose last token is revoked never grows again |
| RefreshTokens.StaleLogoutChangesNothing | backend/internal/auth/repository/refresh_token_repository.go:133-152 | revoking a token that was already rotated leaves the table as it is |
| RefreshTokens.SavedTokenIsUsableUntil | backend/internal/auth/repository/refresh_token_repository.go:52-71 | a token just saved is usable exactly until its expiry, by its user |
| RefreshTokens.RotatedTokenIsUsableUntil | backend/internal/auth/repository/refresh_token_repository.go:90-124 | a token just rotated in is usable exactly until the expiry it was given, by the same user; the old one is usable at no time |
| RefreshTokens.RotatesIff | backend/internal/auth/repository/refresh_token_repository.go:90-124 | a token can be rotated exactly while it is usable, to a hash that is free |
| RefreshTokens.RevocationIsComplete | backend/internal/auth/repository/refresh_token_repository.go:133-152 | a revocation that is not rolled back leaves the token unusable, expired or not, and touches no other |
| RefreshTokens.NewTokenIsUsableUntil | backend/internal/auth/repository/refresh_token_repository.go:52-152 | a token saved or rotated in stays usable exactly until its expiry, over any operations that do not spend it |
| RefreshTokens.ChainsBelongToLogins | backend/internal/auth/repository/refresh_token_repository.go:52-131 | every token of a chain belongs to the user of the login that started it |
| AuthService.Service.IssueTokenPair | backend/internal/auth/service/auth_service.go:253-281 | succeeds exactly when the access token, the random token and the insert all do, and returns the new raw token |
| AuthService.Service.Refresh | backend/internal/auth/service/auth_service.go:97-141 | succeeds exactly when the rotation is effective and acknowledged and lookup and signing succeed; says invalid exactly for an empty token and for one that the table does not hold as usable |
| AuthService.Service.Logout | backend/internal/auth/service/auth_service.go:143-149 | succeeds exactly when the token is not empty and the update is acknowledged, and then leaves it not unrevoked; only an empty token is called invalid |
| AuthService.TokenRefreshesAtMostOnce | backend/internal/auth/service/auth_service.go:97-141 | in any run of calls a raw token refreshes at most once, whatever space is put around it |
| AuthService.CallActsIff | backend/internal/auth/service/auth_service.go:97-281 | a call takes effect if and only if it gets as far as its statement, which finds the tokens as it needs them and is not rolled back; the rows that a login, refresh or logout then leaves, expiry included |
| AuthService.TokenWorksUntil | backend/internal/auth/service/auth_service.go:40-149 | a token handed out at time n by a login or a refresh is usable in every later state exactly until n + ttl, as long as no effective refresh or logout of it came in between |
| AuthService.RefreshSpendsTokenIff | backend/internal/auth/service/auth_service.go:97-141 | whatever it returns, a refresh spends a usable token if and only if a token was drawn, its hash was free and the transaction was not rolled back; otherwise the table is unchanged |
| AuthService.LateFailureLosesTheSession | backend/internal/auth/service/auth_service.go:110-134 | when lookup or signing fails after the rotation, the old token is spent and the live one was never handed out |
| AuthService.OtherTokensUnaffected | backend/internal/auth/service/auth_service.go:292-295 | with a collision-free hash, refresh and logout leave every other token's row alone |
| Access.ToSet | backend/internal/monitoring/access/principal.go:168-177 | the set of the trimmed non-empty values |
| Access.SameAccess | backend/internal/monitoring/access/principal.go:149-166 | a loaded principal has the same access over HTTP and in the hub |
| Access.SplitNames | backend/internal/monitoring/delivery/http_handler.go:186-196 | the loop returns the specified list |
| Access.ParseCsvNames | backend/internal/monitoring/delivery/http_handler.go:186-196 | the parsed names are exactly the trimmed non-empty parts, and all of them are trimmed |
| Access.ParseCsvPartByPart | backend/internal/monitoring/delivery/http_handler.go:186-196 | the parts are treated one by one, so order and repeats are kept |
| LogQuery.ComputeAllowedApplications | backend/internal/monitoring/repository/clickhouse_reader.go:208-230 | everything requested for an admin; otherwise the principal's own or the accessible requested ones, and nothing when none is left |
| LogQuery.BuildLogWhere | backend/internal/monitoring/repository/clickhouse_reader.go:168-206 | clauses and arguments are those of the specification |
| LogQuery.LogWhereMeaning | backend/internal/monitoring/repository/clickhouse_reader.go:168-206 | filled in from left to right, the query selects exactly the rows of an allowed application, a wanted level and the time range, and uses all its arguments |
| LogQuery.PageArgsFollowTheFilter | backend/internal/monitoring/repository/clickhouse_reader.go:52-74 | limit and offset fill the two placeholders after those of the filter |
| LogQuery.NormalizeLimit | backend/internal/monitoring/repository/clickhouse_reader.go:240-248 | between 1 and 500; kept when in range, 100 when not positive |
| LogQuery.NormalizeOffset | backend/internal/monitoring/repository/clickhouse_reader.go:250-255 | never negative, kept when not negative |
| LogQuery.ListedIffDelivered | backend/internal/monitoring/repository/clickhouse_reader.go:168-230 | for trimmed names a row satisfies the filter if and only if the hub would deliver its log under the same principal and names and it lies in the time range |
| LogQuery.FilterMeansDeliveryIff | backend/internal/realtime/service/subscription.go:25-44 | without a time range the two agree on every log if and only if the principal is an admin, names an application, or holds only trimmed names |
| LogQuery.EndpointsAgreeIff | backend/internal/monitoring/delivery/http_handler.go:175-196 | the same for the two endpoints, over every query string |
| IncidentQuery.PostgresPlaceholders | backend/internal/monitoring/repository/postgres_reader.go:363-369 | the consecutive numbers from the given start |
| IncidentQuery.BuildIncidentWhere | backend/internal/monitoring/repository/postgres_reader.go:327-361 | clauses and arguments are those of the specification |
| IncidentQuery.PlaceholdersInOrder | backend/internal/monitoring/repository/postgres_reader.go:109-133 | the placeholders are exactly $1 to $n in text order for the n arguments, and the limit takes the next number |
| IncidentQuery.IncidentWhereMeaning | backend/internal/monitoring/repository/postgres_reader.go:327-361 | the filter selects exactly the incidents of an allowed application with a wanted level and status |
| IncidentQuery.ListedIffAlertDelivered | backend/internal/realtime/service/subscription.go:46-56 | for an admin, for requested applications or for trimmed names: an incident is listed if and only if the hub would deliver an alert like it and its status is the wanted one |
| IncidentQuery.IncidentFilterMeansDeliveryIff | backend/internal/realtime/service/subscription.go:46-56 | the incident filter and the hub agree on every incident if and only if the principal is an admin, names an application, or holds only trimmed names |
| LoadGenerator.DispatchLog | backend/cmd/simulator/runner.go:251-271 | the jobs and the buffer together still hold the generated logs in order, or the one submission due was refused |
| LoadGenerator.RunServerFixed | backend/cmd/simulator/runner.go:158-217 | for any ticks: planned equals generated, which follows the largest expected count and stops at the target; the run completes, waits or is cancelled as the ticks say; jobs and buffer hold the generated logs in order; a completed batch run submits exactly ceil(target/size) jobs, the chunks of all logs, and after a refused submission the loss is exact |
| LoadGenerator.FlushBatch | backend/cmd/simulator/runner.go:173-180 | the forced flush submits the rest as the last, short batch, or loses it when refused |
| LoadGenerator.ChunksAreACut | backend/cmd/simulator/runner.go:302-310 | cutting into chunks loses nothing, makes ceil(n/size) of them, and only the last one is short |
| LoadGenerator.FullBatchesAreChunks | backend/cmd/simulator/runner.go:255-262 | full batches and a shorter rest, cut log by log, are exactly the chunks of the whole |
| LoadGenerator.SubmitBatches | backend/cmd/simulator/runner.go:302-310 | submits the chunks in order up to the first refused one |
| LoadGenerator.SendWithRetry | backend/cmd/simulator/runner.go:135-156 | stops at the first success, sends at most one more than the retries, and gives up early only without backoff or after the context ended |
| InsertObserver.InsertTracker.Track | backend/cmd/simulator/insert_observer.go:34-55 | only a batch sent without error that has trace ids is tracked, with its non-empty trace ids |
| InsertObserver.InsertTracker.BatchesSince | backend/cmd/simulator/insert_observer.go:67-89 | the batches from the index on with their positions, and the new end |
| InsertObserver.CallsConcatenate | backend/cmd/simulator/insert_observer.go:67-89 | successive calls over a growing tracker concatenate to its list: no gap and no repeat |
| InsertObserver.PendingTraceIds | backend/cmd/simulator/insert_observer.go:177-190 | every trace id of a pending batch, once, for every order of the map |
| InsertObserver.QueryInsertedTraceIds | backend/cmd/simulator/insert_observer.go:201-241 | the chunks of a thousand together find exactly the asked ids that are in the table |
| InsertObserver.FoundMeansStored | backend/cmd/simulator/insert_observer.go:192-199 | a pending batch is complete for the query's answer if and only if all its ids are in the table |
| InsertObserver.Observer.PollOnce | backend/cmd/simulator/insert_observer.go:132-156 | take over the new batches, query, count and drop the complete ones, return when the load is over and nothing is left |
| InsertObserver.Observer.SelectOne | backend/cmd/simulator/insert_observer.go:158-173 | the effect of each case of the select |
| InsertObserver.Observer.Observe | backend/cmd/simulator/insert_observer.go:91-175 | any interleaving of workers, polls and timers leads to the state of the specification |
| InsertObserver.ObservationConserves | backend/cmd/simulator/insert_observer.go:132-174 | at a normal or settled end observed plus timed-out batches equal the tracked ones; on cancellation if and only if every tracked batch had been read; after a failure never |
| InsertObserver.TracksIff | backend/cmd/simulator/insert_observer.go:34-55 | a job is tracked, with its non-empty trace ids, if and only if it is a batch that was sent without error at a known time and has such an id |
| InsertObserver.TraceIdsLogByLog | backend/cmd/simulator/insert_observer.go:39-44 | trace ids are collected log by log, in order |
| InsertObserver.TraceIdOfOne | backend/cmd/simulator/insert_observer.go:39-44 | a log without a trace id adds none, any other its own |
| InsertObserver.PollObservesExactly | backend/cmd/simulator/insert_observer.go:133-156 | after a poll that could read the table, a batch is pending if and only if it was pending or new and one of its ids is not in the table; observed and pending add up to the tracked batches |
| InsertObserver.PollFailsIff | backend/cmd/simulator/insert_observer.go:139-143 | a poll that cannot read the table ends the observation if and only if something is pending or new |
| InsertObserver.SelectEffects | backend/cmd/simulator/insert_observer.go:158-173 | cancellation and the settle timer count what is pending as timed out and end the observation; the end of the load and the ticker lead to another poll |
| InsertObserver.CompleteLoadIsObserved | backend/cmd/simulator/insert_observer.go:132-174 | when every tracked trace id is in the table, closing the load, one more poll, hearing of the end and a last poll end the observation with every batch observed |
| InsertObserver.ObservedWereInserted | backend/cmd/simulator/insert_observer.go:192-199 | whatever counts as observed had all its trace ids in the table at one poll |
| InsertObserver.CancellationCanMissABatch | backend/cmd/simulator/insert_observer.go:159-161 | a batch tracked after the last poll is in neither count |

## Left out

- SHA-256 is taken as injective: a fingerprint is represented by the string that is hashed, and token hashing is a function parameter.
- Text is ASCII: Unicode spaces, case and letters are not modelled; the regular expression engine is modelled only for the shape `\bR\b`.
- JSON, time parsing and base64 appear as outcomes: decoded or not, parsed or not.
- SQL and the clients of Kafka, ClickHouse, Postgres, Redis and Telegram are replaced by small stores whose operations may fail. A commit request stores one past the highest offset it names for a partition, even below an earlier one.
- Several consumers, group rebalancing and concurrent writers of the log table: the check before the insert is claimed for one writer only.
- ClickHouse TTL and delayed visibility: a read sees earlier writes.
- Timeouts, backoff and contexts appear as failed calls and as actions that a schedule may take at any time; a crash inside a call is that call failing, with or without effect, followed by a crash.
- Logging, latencies, throughput, floating-point targets and the random choice of levels: the expected count of a tick and each random choice are parameters.
- Postgres row locks serialise concurrent rotations of one token, so the operations of the token table are atomic; the foreign key to users and its cascade are not modelled.
- An incident is identified by its fingerprint, which is unique, in place of its generated id; updated_at, the insert into applications and the status checks of the schema are not modelled.
- A client that reaches a hub that is done is refused by closing its connection; connections, pings and deadlines are not modelled. A connection registers its own new client once (wsHandler.go:72-82).
- `runServerForever` and the mixed mode of `dispatchLogs`: no promise beyond those of `SubmitBatches`.
- Login's password check, token issue and verification, user and rule administration, HTTP handlers and configuration: wrappers around libraries or plumbing.
- The ORDER BY and the aggregation of the readers, and the scanning of result rows.
- RawLogConsumer.NewConfig: the flush interval and the shutdown timeout are left out, because time appears only as the choice of the next action.
- LogQuery.BuildLogWhere: the text of the statement is represented by its clauses; the joining with AND is their conjunction.
- InsertObserver.Observer.PollOnce: the early returns for a missing configuration or a failed connection are not modelled.

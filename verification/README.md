# Verified model of the weather-station pipeline

A Dafny model of the stateful core of huweathersim: simulated sensors publish readings to Kafka, an
ingestion consumer stores them and republishes them clean, an aggregator turns the clean topic into
tumbling windows, and a gateway broadcasts the windows to browsers. `dafny verify dfyconfig.toml`
checks everything.

## The five parts

**Ingestion.** Fetch, handle (insert, publish clean, count) or dead-letter, then commit. `Ingestion` is
the protocol: a state machine over the raw logs, the committed offsets, the process's positions, the
readings table, the clean and dead-letter topics, and one program counter. Any effect may be done,
refused, or done although the caller was told it failed, and a crash may come between any two steps.
`Step` is total (a label that cannot happen changes nothing), so a theorem over label sequences is a
theorem over all schedules. `IngestionSafety`, `IngestionDatabase`, `IngestionOrder`,
`IngestionOvertaking`, `IngestionDuplicates` and `IngestionProgress` prove what survives every schedule;
`IngestionReadout` states the order of the clean topic on its records alone.
`IngestionCode` holds the consumer, reader, producer, pipeline and store as objects updated in place; each
method is proved equal to the protocol's steps, and the consumer loop to `AfterTurns`, which `TurnsAreRun`
shows to be a schedule. A turn may have the context cancelled before or after its fetch, and its fetch may
fail.

**Windows.** `Windows` has the arithmetic of window keys, the aggregator on values and the batch group-by.
`WindowThreads` runs it as its goroutines interleave: a flush may fall between a reading's lateness check and
its update, with any number of threads and arbitrary clocks. `WindowRaces` says exactly which of these
interleavings emit every window once and compute the batch group-by, and exactly which are on time as well;
`WindowBounds` bounds the open windows in all of them; `WindowRuns` shows that the interleavings that keep check and
update together are serial runs, operation by operation, and that others are not. `WindowAverages` is about one
emitted aggregate, `WindowReports` about all that an interleaving emits. `WindowCode` is the Tumbler in place, and
`Aggregator` the two goroutine bodies around it and the effect of crashes.

**Fleet.** `Registry` has the stored sensors, `Fleet` the protocol of writers, lossy notifications, the
one-slot kick channel, the non-atomic listing, the reconcile, the workers and the shutdown.
`FleetWakeup` proves that no wake-up is lost and when one is spent on nothing, `FleetWorkers` accounts for the
workers, `FleetSettings` proves convergence and says exactly when a running sensor's settings are the registered
ones, `FleetReconcile` says what one reconcile does, `FleetPolling` that a tick or a kick always can bring the fleet in
line and that every run can stop. `FleetCode` has the registry client and the manager as objects.

**Hub.** `Hub` is the broadcast hub with every per-client send a step of its own, so that receives fall
between two sends of one broadcast; `HubCode` is the hub with its channels, updated in place.

**Sensors.** `Drift` is the temperature walk over the reals with Go's rounding, `SensorCode` the generator
and the publishing loop. `Events` has the shared event types with their checks, `Rounding` decimal
rounding.

## Reading the theorems

- An instant is an integer, nanoseconds since Go's zero time; `Windows.Unix` and `FromUnix` convert to and
  from Unix seconds.
- A readings row is keyed by sensor id and whole microseconds, which is what a `TIMESTAMPTZ` keeps.
- An *overrun* is a fetch that still returns a message although the context has been cancelled.
- `Carries` means that a message decodes to a reading that breaks no rule, `Explains` that a text is what the decoder
  said of the message or names the first rule its reading breaks.
- A message *overtakes* when it is published clean while an earlier valid message of its partition is uncommitted.
- An interleaving *races* when a flush emits the window of a reading that has passed its check and waits for the
  lock; it is *guarded* when no flush strands a waiting reading, that is, reaches the end plus grace of its window.
  *Clocked* means that no check or flush after a flush goes by an earlier clock reading than that flush did. A
  flush may read its clock and then wait for the lock while later readings are checked and stored; that is clocked.
  A check belongs to the moment it reads its clock: it changes nothing but the late counter, so only its update can
  come late.
- `Follows` says that removing adjacent repeats from a partition's clean offsets gives exactly the offsets of
  its valid messages, in order, up to the latest one published.
- Unknown outcomes come into the object methods as `Fate`s, the clock as `now`, and the order in which a
  map or set is ranged over as an `order` parameter or a nondeterministic choice.

## Where the code differs from its comments, or surprises

- `commit` reports a commit that failed with `context.Canceled` as success (pkg/kafkax/consumer.go:197-199).
  The loop then fetches once more, and if that fetch still delivers, a second message may be published while the
  first is uncommitted (`OverrunReorders`). `IngestionOvertaking.OrderedIffNoOvertaking` shows overtaking to be
  exactly what breaks the order of the clean topic on redelivery, `NoOverrunNoOvertaking` that it takes such a
  fetch, and `DuplicatesAreBounded` counts it.
- The window size is taken from the environment without a check
  (services/aggregation-service/cmd/aggregator/main.go:44-47) while keys are whole seconds.
  `KeyRoundTrip`, `WindowsKeepApart` and `EmitsOnceIffWholeSeconds` give exactly the sizes for which keys are
  faithful, distinct, and emitted once.
- The comment in `Add` (services/aggregation-service/internal/window/window.go:84-85) says a reading past its close
  moment is late because `Closed` has or will have emitted its window. The converse fails: between the check and
  the lock a flush can emit the window, and the reading then opens it again (`WindowEmittedTwice`).
  `EmitsOnceIffRaceFree` and `OnTimeIffGuarded` give exactly the interleavings in which that cannot happen; counts,
  sums and extremes are conserved in all of them.
- A kick asks for one listing. If that fails at its index read, the kick is spent all the same
  (`FailedIndexReadSeesNothing`); `WakeUpSeenIffIndexRead` gives the exact condition.
- Through the registry's own interface, a sensor registered again under a running id keeps the settings of its first registration
  (services/sensor-simulator/internal/simulator/manager.go:124-127, `ReaddedSensorKeepsSettings`). The gateway
  draws a fresh id for every sensor (services/sensor-gateway/internal/httpapi/sensors.go:109), so through it this
  takes an id collision.
- An average rounded to two decimals can leave its window's extremes unless the temperatures are multiples of
  0.01 (`AverageBetweenIffHundredths`); every simulated reading is.
- Add returns an error when storing worked and only the notification failed; the sensor is registered all the
  same (pkg/registry/registry.go:74-76).

## Model

| member | source | states |
|---|---|---|
| IngestionSafety.CommittedIsDisposed | pkg/kafkax/consumer.go:112-203 | At-least-once disposal: after any schedule of crashes, refusals and ambiguous answers, every offset below a committed one that decodes to a reading breaking no rule has a row of its sensor and microsecond and its clean record; any other (with a dead-letter topic) has an envelope with its exact topic, partition, offset, payload and reason |
| IngestionSafety.PublishedIsJustified | pkg/kafkax/consumer.go:127-192 | Nothing is invented: every clean record is the reading, breaking no rule, that the raw message it came from decodes to; every dead letter has the exact address and payload of one message that carries no such reading, what the decoder said or the first broken rule as its reason, the clock of a publish as its time, and exists only with a dead-letter topic |
| IngestionSafety.FinishedIsDisposed | pkg/kafkax/consumer.go:127-156 | A message past its publish or dead-letter step is disposed of, whatever happens next |
| Ingestion.JudgedByItsFaults | pkg/kafkax/consumer.go:127-142 | A message is delivered with a reading if and only if it decodes to it and the reading breaks no rule; it is poison for a reason if and only if that is what the decoder said or the first rule broken |
| Ingestion.ReasonsSpelledOut | pkg/events/reading.go:47-94 | The reason of each first broken rule, word by word, under the plain condition on the reading |
| Ingestion.SharedRow | services/ingestion-consumer/internal/store/store.go:48-61 | Two readings share a row if and only if they come from one sensor and within one microsecond |
| Ingestion.InsertAddsItsRow | services/ingestion-consumer/internal/store/store.go:104-115 | An insert adds the row of the reading's own sensor and microsecond, with its content, unless there is one, and changes no other row |
| Ingestion.AmbiguousIsDoneUnnoticed | pkg/kafkax/consumer.go:144-203 | A refused effect leaves only a process that is down; an ambiguous one has the whole effect of a done one and leaves the process down all the same |
| Ingestion.CancelledCommitGoesOn | pkg/kafkax/consumer.go:194-203 | A commit that fails as cancelled, in a cancelled context, lets the loop go on, whatever became of the commit |
| IngestionDatabase.DatabaseIsFold | services/ingestion-consumer/internal/store/store.go:104-115 | In every reachable state the table is the union over partitions of inserting, once and in order, the longest prefix ever inserted |
| IngestionDatabase.FirstWriterWins | services/ingestion-consumer/internal/store/store.go:48-61 | In every reachable state each stored row is the content of the first message, in the log its sensor is routed to, that decodes to a reading breaking no rule, of that sensor and that microsecond |
| IngestionDatabase.DrainedDatabase | services/ingestion-consumer/internal/store/store.go:94-115 | When everything is committed, the table is the one of a run without any crash |
| IngestionDatabase.DatabaseIgnoresSchedule | services/ingestion-consumer/internal/store/store.go:94-115 | Two histories of crashes and redeliveries over the same log end, once drained, in the same table |
| IngestionDatabase.DrainedRows | services/ingestion-consumer/internal/store/store.go:48-115 | When everything is committed the table has a row for a sensor and a microsecond if and only if some valid message reports it |
| IngestionDatabase.CommittedRowsApart | services/ingestion-consumer/internal/store/store.go:48-115 | Any two committed valid messages have rows of their own sensor and microsecond, one and the same if and only if both agree |
| IngestionDatabase.FoldIsRouted | pkg/kafkax/producer.go:100-103 | Rows with one key come from one partition only, so the first writer of a key is fixed |
| IngestionDatabase.AppendKeepsKeyed | pkg/kafkax/producer.go:100-103 | An append keeps readings on the partition of their key if and only if the message is poison or goes where its sensor id is routed |
| IngestionOrder.CleanFollowsRaw | services/ingestion-consumer/internal/consumer/handler.go:75-99 | Unless a message overtook on it, each partition's clean offsets, adjacent repeats aside, are exactly its valid messages in raw order up to an offset past every valid committed one; none skipped, none going back |
| IngestionOrder.SensorKeepsItsOrder | pkg/events/reading.go:96-106 | Unless a message overtook on its partition, each sensor's clean readings are its raw ones in the order sent, repeated in place at most |
| IngestionReadout.CleanInOrder | services/ingestion-consumer/internal/consumer/handler.go:75-99 | The same read off the records: unless a message overtook on their partition, a later clean record never has a smaller offset, and every valid message before the one of a clean record has a clean record before that |
| IngestionOvertaking.OrderedIffNoOvertaking | pkg/kafkax/consumer.go:195-203 | On a partition no message ever overtakes if and only if, crashed at any point of the run and redelivered for any number of turns, its clean records follow its log |
| IngestionOvertaking.OvertakingBreaksOrder | pkg/kafkax/consumer.go:153-203 | From any state, an overtaking publish, a crash and a redelivery put the skipped message behind the later one |
| IngestionOrder.InTurnAlways | pkg/kafkax/consumer.go:112-157 | A partition that is only polled with everything it delivered committed sees no overtaking |
| IngestionOrder.NoOverrunNoOvertaking | pkg/kafkax/consumer.go:153-156 | A run without overruns sees no overtaking, on any partition |
| IngestionOrder.OverrunReorders | pkg/kafkax/consumer.go:195-199 | The run that breaks the order: a cancelled commit taken as success, one more fetch, a crash; the clean topic carries offsets 0, 1, 0 |
| IngestionDuplicates.DuplicatesAreBounded | pkg/kafkax/consumer.go:153-203 | Clean records plus dead letters outnumber the distinct raw messages behind them by at most one per restart and one per overrun of an earlier process |
| IngestionDuplicates.DuplicateBoundIsAttained | pkg/kafkax/consumer.go:153-203 | For every number of restarts some run without overruns attains the bound |
| IngestionProgress.EnvelopeIsValid | pkg/events/deadletter.go:53-64 | The envelope of any poison message passes its check if and only if the topic has a name and the clock is past the zero time |
| IngestionProgress.HealthyTurn | pkg/kafkax/consumer.go:112-157 | With healthy infrastructure one turn takes the next message, whatever it is, and commits exactly it; a reading breaking no rule it stores, publishes clean and counts, anything else it dead-letters with its address, payload, reason and the clock, if there is a topic; a cancellation on the way makes no difference |
| IngestionProgress.DrainTakesBacklogTurns | pkg/kafkax/consumer.go:103-157 | Poison never wedges a partition: a finite log is drained if and only if as many turns were taken as it had uncommitted messages, in any polling order |
| IngestionProgress.SomeTurnsDrain | pkg/kafkax/consumer.go:103-157 | From any idle state there is such a sequence of turns of every length up to the backlog |
| IngestionProgress.TurnsAreRun | pkg/kafkax/consumer.go:112-157 | Turns of the loop, with their cancellations and failing fetches, are schedules of the protocol, so all the above holds of the loop |
| IngestionCode.Store.InsertReading | services/ingestion-consumer/internal/store/store.go:104-115 | Inserts if the key is absent, for every outcome; afterwards the rows are the old ones and that of the reading's own sensor and microsecond; reports an error exactly when not told it is done |
| IngestionCode.Producer.Publish | pkg/kafkax/producer.go:84-108 | Appends exactly one record, at the end of the partition its key is routed to and nowhere else, unless the event is invalid or the write refused; an ambiguous write is in the log and reported as failed |
| IngestionCode.Reader.FetchMessage | pkg/kafkax/consumer.go:114-125 | Fails without effect, or returns the next message of the partition and advances the position, never the commit |
| IngestionCode.Reader.CommitMessages | pkg/kafkax/consumer.go:194-203 | Moves one partition's committed offset past the message, unless refused |
| IngestionCode.Pipeline.Handle | services/ingestion-consumer/internal/consumer/handler.go:75-99 | Insert, then publish, then count; stops at the first failure and keeps what had already happened |
| IngestionCode.Consumer.constructor | pkg/kafkax/consumer.go:42-76 | A new consumer is the protocol's initial state |
| IngestionCode.Consumer.CancelContext | pkg/kafkax/consumer.go:107-117 | The cancellation is the protocol's cancel step |
| IngestionCode.Consumer.FetchOne | pkg/kafkax/consumer.go:114-125 | The fetch, with the cancellations around it, is the protocol's fetch steps; a failed one leaves the process down |
| IngestionCode.Consumer.CommitOne | pkg/kafkax/consumer.go:194-203 | One commit is the protocol's commit step; a cancelled one counts as success |
| IngestionCode.Consumer.DeadLetterOne | pkg/kafkax/consumer.go:167-192 | Publishes the exact envelope before committing; without a dead-letter topic only commits; a failed publish leaves the message uncommitted |
| IngestionCode.Consumer.HandleOne | pkg/kafkax/consumer.go:144-151 | The handler call is the protocol's insert, publish and count steps |
| IngestionCode.Consumer.DisposeOf | pkg/kafkax/consumer.go:127-155 | Decode and validate decide between handler and dead letter, and the commit comes last |
| IngestionCode.Consumer.TakeTurn | pkg/kafkax/consumer.go:112-156 | One pass through the loop is the protocol's turn; it stops the loop without an error exactly when the fetch failed and the context is cancelled |
| IngestionCode.Consumer.Run | pkg/kafkax/consumer.go:112-157 | The loop over the objects leaves exactly the protocol state after the turns it took; it ends at the first failure, cleanly exactly when that is a failed fetch of a cancelled context |
| IngestionCode.HandlerInOneGo | services/ingestion-consumer/internal/consumer/handler.go:75-99 | The combined effect of the handler's three protocol steps, for every pair of outcomes |
| IngestionCode.PoisonInOneGo | pkg/kafkax/consumer.go:167-192 | The combined effect of the dead-letter steps, for every outcome, with and without a topic |
| IngestionCode.DownIsStuck | services/ingestion-consumer/internal/consumer/handler.go:66-74 | Once the loop has returned, nothing but the cancellation flag changes until a restart |
| Windows.KeyRoundTrip | services/aggregation-service/internal/window/window.go:82-115 | Window start to key and back is the identity on all instants if and only if the size is a positive whole number of seconds |
| Windows.WindowsKeepApart | services/aggregation-service/internal/window/window.go:82-97 | Different windows always have different keys if and only if the size is at least a second |
| Windows.AcceptedIffWindowOpen | services/aggregation-service/internal/window/window.go:84-89 | A reading is accepted if and only if a flush at the same instant would leave its window open |
| Windows.EmittedBoundsAreTheWindow | services/aggregation-service/internal/window/window.go:115-123 | A reading belongs to a window if and only if its time lies between the start and end the aggregate carries, start included and end not; the start is a multiple of the size and the end one size later |
| Windows.OnTimeUntilGrace | services/aggregation-service/internal/window/window.go:82-89 | A reading is accepted if and only if the clock is before the start of the window it lies in (its own time if the size is not positive) plus size plus lateness, so for positive sizes always until its own time plus lateness |
| Windows.HarvestedAfterGrace | services/aggregation-service/internal/window/window.go:114-123 | For any size, an aggregate starts at the second its key names and lasts the size, and a flush harvests its window if and only if its end plus lateness has come; for whole seconds its readings are late from then on |
| Windows.WindowByTimes | services/aggregation-service/internal/window/window.go:94-123 | Grouping by key is grouping by the start and end the aggregate carries |
| Windows.ReadingInWindow | services/aggregation-service/internal/window/window.go:78-82 | Every reading lies in the half-open window its key names |
| Windows.PushSummarizes | services/aggregation-service/internal/window/window.go:94-102 | Adding a reading keeps a bucket's sum, count and true extremes |
| Windows.AddSummarizes | services/aggregation-service/internal/window/window.go:86-103 | An add on time extends what its window's bucket summarizes by its temperature, a late one is counted, and neither touches anything else |
| Windows.SummaryIsUnique | services/aggregation-service/internal/window/window.go:29-34 | A window's readings determine its bucket |
| WindowThreads.NothingLostPerWindow | services/aggregation-service/internal/window/window.go:77-134 | In every interleaving, with any clocks and threads, a window's open bucket and emitted aggregates together have the number, the sum and the extremes of the readings stored for it |
| WindowThreads.EveryAddIsAccountedFor | services/aggregation-service/internal/window/window.go:77-139 | In every interleaving, completed adds = late + emitted + open |
| WindowThreads.AddIsStoredOrLate | services/aggregation-service/internal/window/window.go:77-104 | The check and the update of one thread complete one add, which is stored as the latest reading if on time and counted late otherwise |
| WindowRaces.StreamingIsBatch | services/aggregation-service/internal/window/window.go:77-134 | For any threads: after a race-free clocked interleaving, open buckets and emitted windows together are the group-by of the stored readings: one exact summary per nonempty window, no others, none twice |
| WindowReports.EmittedCovers | services/aggregation-service/internal/window/window.go:109-134 | After a race-free clocked interleaving every emitted aggregate covers one tumbling window and carries the number, the true extremes and the mean to two decimals of exactly the stored readings between its start and its end |
| WindowReports.ReportedOnce | services/aggregation-service/internal/window/window.go:109-134 | With no window left open every stored reading lies between the bounds of exactly one emitted aggregate |
| WindowReports.FlushReports | services/aggregation-service/internal/window/window.go:109-134 | So does what a flush returns; each window in it is due, and with one-decimal readings each average lies between its extremes |
| WindowRaces.EmitsOnceIffRaceFree | services/aggregation-service/internal/window/window.go:86-117 | A clocked interleaving is race-free if and only if after each of its flushes no waiting reading, stored and flushed right away, makes a window come out twice |
| WindowRaces.RaceEmitsTwice | services/aggregation-service/internal/window/window.go:86-131 | From any state a racing flush, the waiting reading's update and another flush emit its window twice |
| WindowRaces.EmittedOnceOnTime | services/aggregation-service/internal/window/window.go:82-131 | In a guarded interleaving a window is emitted by the first flush at or after the end its aggregate carries plus lateness, and by no other, and every later check of a reading between its bounds is late |
| WindowRaces.OpenIsNotDue | services/aggregation-service/internal/window/window.go:114-118 | In a guarded interleaving every flush so far came before the end plus lateness of every window still open |
| WindowRaces.OnTimeIffGuarded | services/aggregation-service/internal/window/window.go:86-117 | A clocked interleaving is guarded if and only if after each of its flushes no waiting reading, stored right away, opens a window that flush should have closed |
| WindowRaces.EmitsOnceIffWholeSeconds | services/aggregation-service/internal/window/window.go:94-117 | Every clocked race-free interleaving emits each window at most once if and only if the size is a positive whole number of seconds |
| WindowRaces.FlushScheduleIsIrrelevant | services/aggregation-service/internal/window/window.go:106-134 | Two race-free interleavings with the same checks and updates and any flushes have emitted the same aggregates, and the same late count, once drained |
| WindowBounds.OpenWindowBound | services/aggregation-service/internal/window/window.go:84-118 | In every interleaving, right after a flush and with no stored reading from the future, at most ceil((size + lateness) / size) buckets remain: all but one of them fit into less than size plus lateness |
| WindowRuns.SerialRuns | services/aggregation-service/internal/window/window.go:91-92 | The serial runs are guarded interleavings with the same state, readings and flushes |
| WindowRuns.SerialIsAdjacent | services/aggregation-service/internal/window/window.go:91-92 | A serial run is an interleaving that keeps check and update together, of exactly its operations |
| WindowRuns.AdjacentIsSerial | services/aggregation-service/internal/window/window.go:91-92 | Every interleaving, on any threads, in which whoever passed the check takes the lock next leaves just what its own operations, with their own readings and clocks, leave one by one |
| WindowRuns.RacyIsNotSerial | services/aggregation-service/internal/window/window.go:86-92 | For every on-time reading a clocked interleaving of one adding thread does not leave what its operations leave one by one |
| WindowRuns.SerialRunsAreBatch | services/aggregation-service/internal/window/window.go:77-134 | Serial runs compute the batch group-by and emit each window once, by the first flush at or after the end its aggregate carries plus lateness |
| WindowThreads.WindowEmittedTwice | services/aggregation-service/internal/window/window.go:86-92 | For every on-time reading there is an interleaving of a single adding thread with the flusher that emits its window twice |
| WindowAverages.EmittedReports | services/aggregation-service/internal/window/window.go:120-130 | The aggregate of a window carries the number and the true extremes of its readings and their mean to two decimals, within 0.005 and a tie away from zero, under the national scope |
| WindowAverages.ReportIsUnique | services/aggregation-service/internal/window/window.go:120-130 | The readings determine every field of the aggregate but its bounds |
| WindowAverages.AverageOfOneDecimalReadings | services/aggregation-service/internal/window/window.go:124-128 | For one-decimal readings, however many, the aggregate has minimum <= average <= maximum |
| WindowAverages.AverageBetweenIffHundredths | services/aggregation-service/internal/window/window.go:124-128 | Every aggregate of readings drawn from a stock of temperatures has its average between its extremes if and only if the stock is all multiples of 0.01 |
| WindowAverages.EmittedIsValid | pkg/events/aggregate.go:46-60 | Every aggregate of a nonempty window passes its own check |
| WindowCode.Bucket.Take | services/aggregation-service/internal/window/window.go:96-102 | Starting from infinite extremes, a reading is folded in exactly as the specification says |
| WindowCode.Tumbler.Add | services/aggregation-service/internal/window/window.go:77-104 | In place: stores the reading in its bucket or counts it late, false exactly when the clock has reached the start of its window plus size plus lateness, and keeps every other bucket's object |
| WindowCode.Tumbler.CloseOne | services/aggregation-service/internal/window/window.go:114-132 | One turn of the flush loop harvests the bucket exactly when its grace period has expired, as an aggregate that reports its readings, and otherwise touches nothing |
| WindowCode.Tumbler.Closed | services/aggregation-service/internal/window/window.go:109-134 | In place: returns the expired windows in range order and leaves exactly the others |
| WindowCode.FlushReturnsHarvest | services/aggregation-service/internal/window/window.go:109-134 | Whatever the range order, a flush returns exactly the expired windows, each once |
| WindowCode.Tumbler.LateCount | services/aggregation-service/internal/window/window.go:136-139 | Is the number of readings Add has ever refused |
| Aggregator.Aggregator.Handle | services/aggregation-service/cmd/aggregator/main.go:130-133 | The handler adds the reading and never fails |
| Aggregator.Aggregator.Flush | services/aggregation-service/cmd/aggregator/main.go:95-108 | One tick publishes what it harvested, in order, and a failed publish loses only that aggregate |
| Aggregator.FlushedIsValid | services/aggregation-service/cmd/aggregator/main.go:96-97 | In every interleaving, all a flush returns passes the check of the publish that follows |
| Aggregator.AllArrive | services/aggregation-service/cmd/aggregator/main.go:96-104 | So a tick delivers everything it harvested, in order, unless the broker refuses |
| Aggregator.EachOnItsOwn | services/aggregation-service/cmd/aggregator/main.go:96-104 | Item by item: an aggregate of a tick arrives if and only if it is valid and not refused, whatever befell the others, and those that arrive keep their order |
| Aggregator.EmittedStaysEmitted | services/aggregation-service/cmd/aggregator/main.go:116-125 | At most once across crashes: whatever is redelivered to a later process and however its threads interleave, as long as its checks are not before the flush, no window emitted before the crash is emitted again |
| FleetWakeup.ConsistentAlways | pkg/registry/registry.go:55-78 | In every reachable state the index is exactly the set of stored hashes, each under its own id and valid |
| FleetWakeup.NoLostWakeUp | services/sensor-simulator/internal/simulator/manager.go:66-104 | Once a change's notification is delivered, a token is in the slot, or the manager is about to list, or it has attempted a listing since the change |
| FleetWakeup.NotificationCanBeLost | pkg/registry/registry.go:70-77 | Any notification still to be sent or on its way can vanish without anything else happening |
| FleetWakeup.WakeUpSeenIffIndexRead | services/sensor-simulator/internal/simulator/manager.go:107-117 | Idle with an empty slot and a change delivered, the manager has attempted a listing since; it has seen the change if and only if one of those attempts got past its index read |
| FleetWakeup.FailedIndexReadSeesNothing | pkg/registry/registry.go:101-105 | The run in which a delivered wake-up is spent on a listing whose index read fails: idle, no token, nothing seen, nothing running |
| FleetWakeup.ListIsWeakSnapshot | pkg/registry/registry.go:101-135 | A finished listing holds every sensor registered throughout, only ids that were in the index at its read, each once and with the settings stored when this listing read its hash |
| FleetSettings.WorkerWasRegistered | services/sensor-simulator/internal/simulator/manager.go:124-127 | Every worker runs on the settings the registry held under its id when the listing behind its start read them |
| FleetSettings.RegistryHoldsWhatIsInForce | pkg/registry/registry.go:55-78 | Under every id the registry holds the settings of the last accepted Add that nothing has touched since, and nothing if there is none |
| FleetSettings.SettingsCurrentIffNotSuperseded | services/sensor-simulator/internal/simulator/manager.go:119-127 | A worker's settings are the registered ones if and only if no Add of its id with other settings, made since its listing read the hash, is still in force |
| FleetSettings.ReaddedSensorKeepsSettings | services/sensor-simulator/internal/simulator/manager.go:124-127 | The run in which a sensor is added again with other settings, both notifications are delivered and the reconcile is carried through, and the worker keeps the old settings |
| FleetSettings.QuiescentFleetMatchesRegistry | services/sensor-simulator/internal/simulator/manager.go:79-138 | Idle after a successful reconcile, with no token and the latest notification delivered, exactly the registered sensors run, each on its registered settings if and only if these were not superseded since its listing |
| FleetSettings.UndisturbedReconcileConverges | services/sensor-simulator/internal/simulator/manager.go:74-85 | The same even if every notification is lost, after a successful reconcile whose index read saw the registry as it still is |
| FleetPolling.PollConverges | services/sensor-simulator/internal/simulator/manager.go:74-99 | From every reachable idle state some steps of the manager that begin with a tick end idle after a successful listing, with exactly the stored sensors running, whatever notifications were lost |
| FleetPolling.KickConverges | services/sensor-simulator/internal/simulator/manager.go:66-102 | Unless the manager waits for its workers or is gone, after a kick some of its steps use up the token and end the same way |
| FleetWorkers.FleetIsAccountedFor | services/sensor-simulator/internal/simulator/manager.go:141-160 | Always: the WaitGroup counts the live workers, each running id has exactly one worker not told to stop, live until shutdown |
| FleetWorkers.LeavesIffTold | services/sensor-simulator/internal/simulator/manager.go:128-155 | A live worker can leave if and only if it was told to or everything shuts down; before the shutdown, if and only if it is not the running worker of its sensor |
| FleetWorkers.NothingOutlivesRun | services/sensor-simulator/internal/simulator/manager.go:89-96 | When Run has returned, and so when the producer closes, no worker is live, even after a reconcile chosen after the cancellation |
| FleetWorkers.ShutdownCompletes | services/sensor-simulator/internal/simulator/manager.go:89-96 | A waiting Run returns after exactly as many worker exits as the WaitGroup counts |
| FleetPolling.EveryRunCanStop | services/sensor-simulator/internal/simulator/manager.go:79-104 | From every reachable state a cancellation, steps of the manager and exits of workers lead to a manager that has returned and a closed producer, with no worker left |
| FleetReconcile.LastListedWins | services/sensor-simulator/internal/simulator/manager.go:119-122 | An id is desired exactly when it is listed, with the settings of its last occurrence |
| FleetReconcile.ReconcileIsExact | services/sensor-simulator/internal/simulator/manager.go:107-138 | From any reachable state, in any order and with worker exits, kicks, notifications, registry changes and cancellations in between, a finished reconcile runs exactly the desired ids; survivors keep their worker, each newcomer got one new worker on the listed settings, and an old worker is cancelled exactly if it was before or was dismissed |
| FleetReconcile.QuietReconcileIsExact | services/sensor-simulator/internal/simulator/manager.go:107-138 | With only the manager's steps, moreover no worker left and the WaitGroup grew by just the newcomers |
| FleetReconcile.ManageIsRun | services/sensor-simulator/internal/simulator/manager.go:107-160 | The manager's steps, which the object below is proved against, are a schedule of the protocol |
| FleetReconcile.ReconcileIsIdempotent | services/sensor-simulator/internal/simulator/manager.go:107-138 | A second reconcile on the same list changes nothing |
| FleetCode.RegistryClient.Add | pkg/registry/registry.go:55-78 | An invalid sensor is refused before any write; otherwise the write and then its notification are the protocol's steps, for every outcome |
| FleetCode.RegistryClient.Remove | pkg/registry/registry.go:174-193 | Deletes hash and index together, says whether the sensor existed, and notifies only then |
| FleetCode.RegistryClient.List | pkg/registry/registry.go:101-135 | Returns the present sensors in index order, skips missing hashes, and fails on any other failure |
| FleetCode.ListIsProtocolListing | pkg/registry/registry.go:101-135 | Reading the whole index in any order, each hash at its own moment, the returned slice gives the manager exactly what the protocol's reads collect |
| FleetCode.Watch | pkg/registry/registry.go:149-169 | Kicks on every message until the context is done or the channel closes (an error); any number of messages leaves one token |
| FleetCode.Manager.constructor | services/sensor-simulator/internal/simulator/manager.go:53-61 | A new manager runs nothing and has an empty slot |
| FleetCode.Manager.Kick | services/sensor-simulator/internal/simulator/manager.go:66-71 | A kick leaves a token in the slot, whether or not one was there |
| FleetCode.Manager.Launch | services/sensor-simulator/internal/simulator/manager.go:141-160 | Starts one new worker and counts it, keeping one worker per running id |
| FleetCode.Manager.Dismiss | services/sensor-simulator/internal/simulator/manager.go:128-137 | Cancels exactly that worker and forgets it |
| FleetCode.Manager.WorkerDone | services/sensor-simulator/internal/simulator/manager.go:154-155 | A cancelled worker leaves and is no longer counted |
| FleetCode.Manager.Reconcile | services/sensor-simulator/internal/simulator/manager.go:107-138 | A failed listing keeps the fleet; otherwise the loops are a schedule of protocol steps that ends in an exact reconcile |
| FleetCode.Manager.Handle | services/sensor-simulator/internal/simulator/manager.go:87-103 | One pass through the select reconciles with its listing, which a tick or a token always does before the wait, or leaves the fleet alone but for the exit of a worker told to |
| FleetCode.Manager.Run | services/sensor-simulator/internal/simulator/manager.go:79-104 | Reconciles at boot and then goes through one fleet per event, each an exact reconcile, a worker's exit or no change; ends exactly when waiting with nobody left, and then no worker is live |
| FleetCode.SurvivorKeepsWorker | services/sensor-simulator/internal/simulator/manager.go:124-137 | A sensor that runs throughout keeps its worker through any number of events |
| FleetCode.LatestListingWins | services/sensor-simulator/internal/simulator/manager.go:79-117 | After any events the running ids are those of the latest listing that succeeded and was acted on |
| Registry.WhichSensorsPass | pkg/registry/sensor.go:44-113 | A sensor passes if and only if its probe breaks no rule of a reading, its pattern is one of the four and its interval is 1 to 30 seconds; each refusal exactly under its own condition |
| Registry.PutIsConsistent | pkg/registry/registry.go:63-68 | Storing a valid sensor keeps index and hashes in step and changes just its own entry |
| Registry.DeleteIsConsistent | pkg/registry/registry.go:175-180 | So does removing one, which leaves just the others |
| Registry.RegisteredSensorEmitsValid | pkg/registry/sensor.go:95-113 | Every reading a registered sensor's worker builds, with any pattern and draws, passes the shared contract |
| Hub.OthersDoNotInterfere | services/notification-gateway/internal/hub/hub.go:17-75 | Cutting all other clients' actions out of a run leaves a possible run that looks exactly the same to the client left |
| Hub.ClientIsLoneFifo | services/notification-gateway/internal/hub/hub.go:40-75 | A client's channel is what a lone greedy 16-slot queue makes of its own receives and of the broadcasts made while it was registered, each offered once, in order |
| Hub.FifoAccounts | services/notification-gateway/internal/hub/hub.go:65-75 | Received + queued + dropped = offered; what got through kept its order; at most sixteen wait |
| Hub.DroppedIffBehind | services/notification-gateway/internal/hub/hub.go:12-27 | A client loses messages if and only if at some moment it is more than sixteen behind; otherwise it gets all of them in order |
| Hub.DropsAreExact | services/notification-gateway/internal/hub/hub.go:86-89 | The drop count is, client by client, what the lone queue would have dropped |
| Hub.SendsHitOpenChannels | services/notification-gateway/internal/hub/hub.go:48-60 | In every reachable state exactly the registered clients have an open channel, and a send that can happen goes to one of them |
| Hub.BroadcastCanFinish | services/notification-gateway/internal/hub/hub.go:62-75 | However full the queues, from every reachable state one send to each client still to be served, all possible, ends the broadcast |
| Hub.QueueCanDrain | services/notification-gateway/internal/hub/hub.go:38-60 | A client can always read all that is queued for it, in order, also during a broadcast and after its channel is closed |
| Hub.BroadcastServesAll | services/notification-gateway/internal/hub/hub.go:65-75 | In any order, a broadcast offers the message once to each registered client, touches nobody else and frees the lock |
| HubCode.Channel.TrySend | services/notification-gateway/internal/hub/hub.go:69-73 | Queues if there is room, otherwise skips and says so |
| HubCode.Channel.Receive | services/notification-gateway/internal/hub/hub.go:38-39 | Hands out the oldest queued message, or none |
| HubCode.HubObject.Register | services/notification-gateway/internal/hub/hub.go:40-46 | Returns a fresh open channel, now a client; nobody else changes |
| HubCode.HubObject.Unregister | services/notification-gateway/internal/hub/hub.go:52-60 | Removes the client and closes its channel; a second call does nothing |
| HubCode.HubObject.SendOne | services/notification-gateway/internal/hub/hub.go:69-73 | One turn of the broadcast loop is one protocol send, possible in that state |
| HubCode.HubObject.Broadcast | services/notification-gateway/internal/hub/hub.go:65-75 | The loop is the protocol's sends in the range order, and ends with the lock free |
| HubCode.HubObject.ClientCount | services/notification-gateway/internal/hub/hub.go:80-84 | Is the number of clients the protocol has registered, no two channels sharing an id |
| HubCode.HubObject.Dropped | services/notification-gateway/internal/hub/hub.go:86-89 | Equals the number of skipped deliveries |
| Drift.NextInTenths | services/sensor-simulator/internal/simulator/drift.go:65-99 | From any temperature, with any pattern and draw, the next is one-decimal and in [-45, 55] |
| Events.FirstFaultIsReported | pkg/events/reading.go:69-94 | A reading passes if and only if it breaks no rule, and otherwise the first broken rule is reported |
| Events.ContractOfAReading | pkg/events/reading.go:32-94 | The rules of a reading with their bounds, and under which plain condition each is the first one broken |
| Events.ContractOfADeadLetter | pkg/events/deadletter.go:53-64 | A dead letter passes if and only if it has a source topic, a reason and a time; which is missed first |
| Events.ContractOfAnAggregate | pkg/events/aggregate.go:46-60 | An aggregate passes if and only if it has a scope, a positive length, a reading and extremes in order; which is missed first |
| Drift.WalkedReadingIsValid | pkg/events/reading.go:75-94 | A reading built on a walk passes the shared contract |
| Drift.RisingStep | services/sensor-simulator/internal/simulator/drift.go:69-87 | A rising sensor gains exactly 0.2, or 0.1 at a rounding tie at or below zero, up to 55.0 |
| Drift.FallingStep | services/sensor-simulator/internal/simulator/drift.go:71-87 | A falling sensor loses exactly 0.2, or 0.3 at such a tie, down to -45.0 |
| Drift.QuietStep | services/sensor-simulator/internal/simulator/drift.go:73-87 | A steady sensor moves at most 0.1 and a noisy one at most 1.5 per reading |
| Drift.QuietStepReaches | services/sensor-simulator/internal/simulator/drift.go:73-94 | Every tenth a steady or noisy sensor may move to is reached by some draw |
| Drift.StepFromAnywhere | services/sensor-simulator/internal/simulator/drift.go:65-88 | From any temperature well inside the clamp a step is the pattern's own, within half a tenth |
| Drift.RisingArrives | services/sensor-simulator/internal/simulator/drift.go:65-99 | A rising sensor is at 55.0 after at most `RisingNeed` readings and stays; if every draw is 0 it needs exactly that many |
| Drift.FallingArrives | services/sensor-simulator/internal/simulator/drift.go:65-99 | A falling sensor is at -45.0 after at most `FallingNeed` readings and stays; if no draw is 0 it needs exactly that many |
| Drift.TrendsEnd | services/sensor-simulator/internal/simulator/drift.go:28-35 | From any start, trends end at the clamp within 726 and 501 readings, for good |
| SensorCode.Drifter.NextJitter | services/sensor-simulator/internal/simulator/drift.go:91-94 | Uses exactly one draw |
| SensorCode.Drifter.NextTemp | services/sensor-simulator/internal/simulator/drift.go:65-88 | Computes the next temperature from one draw |
| SensorCode.Sensor.Run | services/sensor-simulator/internal/simulator/sensor.go:58-106 | One drift step and at most one record per tick; a sensor inside the bounds puts exactly one record on the topic for each tick whose write is not refused, with its own id and coordinates, the tick's time and the walk's temperature, and a publish fails exactly when the broker does; ends at cancellation, or at a failed publish while cancelled, and at nothing else |
| SensorCode.Sensor.OnlyTheBrokerFails | services/sensor-simulator/internal/simulator/sensor.go:79-90 | No reading of a sensor inside the bounds is turned down for its content |
| SensorCode.AcceptedTicks | services/sensor-simulator/internal/simulator/sensor.go:79-103 | The ticks that reach the topic are exactly those whose write is not refused, each once and in order |

## Left out

- IngestionOrder.CleanFollowsRaw: only for partitions without overtaking, exactly where redelivery keeps the order (OrderedIffNoOvertaking).
- IngestionOrder.SensorKeepsItsOrder: likewise.
- IngestionOvertaking.OrderedIffNoOvertaking: for a topic with a name, as every dead letter needs one.
- WindowRaces.StreamingIsBatch: only for sizes of a whole number of seconds and race-free interleavings on one clock; EmitsOnceIffWholeSeconds and EmitsOnceIffRaceFree give the exact conditions.
- WindowBounds.OpenWindowBound: readings stamped in the future can keep more windows open.
- FleetReconcile.ReconcileIsExact: compares ids only, as the source does; FleetSettings says which settings run.
- IngestionCode.Consumer.Run: takes its turns as a finite sequence; the endless loop is every such sequence. Blocking in a fetch is a turn that finds nothing, and a cancellation during a turn comes right before or right after the fetch, since only fetch and commit look at it.
- SensorCode.Sensor.Run: likewise finite; ticks come from the sequence, not from a timer.
- FleetCode.Manager.Run: goroutines are a table of workers by number, updated by launch, cancel and exit; the publishing inside a worker is module SensorCode.
- HubCode.HubObject.Broadcast: the order of ranging over the client set is a parameter; receives between two sends are in module Hub only.
- Several consumers in a group, rebalancing, retention and the broker's own retries: one consumer whose restart resets its positions to the committed offsets, and at most one append per publish call. An effect reported as failed has happened or never will.
- Decoding is a total function of the message's bytes; JSON, durations, timestamps and the Redis string fields are not modelled.
- Ingestion.ReasonsSpelledOut: the value the source appends to the reason for a temperature or coordinates out of range (pkg/events/reading.go:86-92) is left out, as it takes formatting of floats.
- A value Postgres refuses (such as a NUL byte in an id) is one more failed insert.
- IEEE floats, NaN and infinities as input: temperatures, coordinates and averages are reals, so the NaN guards disappear. Infinities remain only as a fresh bucket's extremes.
- Overflow of 64-bit counters, durations and timestamps.
- The keys of aggregates and dead letters: a producer is given its key function.
- Random ids and generator internals: a draw is any real in [0, 1).
- Real timers and fairness: ticks, kicks, cancellations, exits and receives may come in any order.
- HTTP and WebSocket handlers, health checks, topic and schema creation, environment parsing, logging, telemetry-api, web/ and deploy/.

# Icinga DB: verified core

A Dafny model of the parts of Icinga DB where several things happen at once or in a particular order, with proofs of what
they promise. `dafny verify dfyconfig.toml` checks everything.

* `Sla.dfy`: the SQL function `get_sla_ok_percent`, a sweep over a sorted cursor, equals a definition that looks at single
  milliseconds only, first over the cursor's rows and then over the tables themselves.
* `HaProtocol.dfy`, `HaTiming.dfy`, `HaClock.dfy`, `HaStabilisation.dfy`: any number of instances that compete for
  responsibility over one SQL table, as a state machine in which transactions fail, commit late, and heartbeats get lost;
  its clock; and the timers that make an instance give up. `Ha.dfy` is the controller as an object; what it does with a
  heartbeat is proved to be a run of that machine, with the steps of other instances between its attempts.
  `Heartbeat.dfy` is the heartbeat loop with its one-slot event buffer.
* `Paging.dfy`, `ChunkCacheTx.dfy`, `PreviousHardState.dfy`, `EventTime.dfy`, `Flapping.dfy`, `Migration.dfy`: the IDO migration, with its paging
  queries, its two caches, periodic commits, crashes and restarts.
* `SubmissionHeap.dfy`, `SorterProtocol.dfy`, `StreamSorter.dfy`: the stream sorter's queue as a heap, its worker as a state
  machine with a log, and the worker's loop, whose runs are runs of that machine.
* `HistoryPipeline.dfy`, `HistoryProgress.dfy`, `HistoryStage.dfy`: the history pipeline with any number of stages, why it
  loses nothing and why it always finishes, and the goroutines of one stage with the map whose values they share. The machine allows more interleavings than the unbuffered channels do, and a stage
  without entities may hold, reorder or drop entries, which covers the stream sorter as an extra stage.
* `Delta.dfy`: the delta of two streams and the three writers that apply it.
* `RuntimeUpdates.dfy`: the reader of the runtime update stream, and the goroutines of each type with their tokens.
* `DumpSignals.dfy`: the channels that signal finished dumps.

Databases are maps, Redis streams are sequences or sets of increasing IDs, channels are queues, time is counted in
milliseconds. A committed transaction is one atomic step, or (for HA) a start and an end between which no other
transaction of the environment runs. What comes from outside (which row a SELECT yields, which goroutine is next, when a
process dies, how long something takes) is a parameter, so that the results hold for all possibilities. State machines
have steps that the code can take, an `Enabled` predicate, and a `Next` function; `IsRun` and `After` talk about whole runs.

Five expectations turned out to hold only under a condition. Each condition is proved to be exact, and each comes with an
input for which it fails:

* The downtime counter of the SLA function stays in its unsigned range if and only if at no time more downtimes have ended
  than begun, which holds if no downtime ends before it starts (`Sla.Sweep`, `Sla.CounterMeansDowntime`,
  `Sla.UnderflowExample`).
* Killing and resuming the event-time cache is invisible if and only if no end event after the checkpoint and before the
  crash is followed there by a start event of the same object (`EventTime.RestartIsInvisibleIff`,
  `EventTime.RestartExample`).
* Starting to realize a heartbeat keeps at most one HA instance responsible in all later runs if and only if the heartbeats
  that the instance may have to rely on are fresh: the new one if it is committed and makes or keeps the instance
  responsible, and the one in its row if it is not (`HaTiming.RealizeIsSafeIffFresh`, `HaTiming.LateHeartbeatBreaksLease`).
* A migration batch may be interrupted, reordered and repeated if and only if its statements for the same row are the same
  (`Migration.BatchIsSafeIffConsistent`, `Migration.DuplicateKeysMatter`).
* The pipeline empties the stream of history events if and only if its stages can decode all of them
  (`HistoryProgress.EveryScheduleCompletes`, `HistoryProgress.UndecodableStays`).

The comment in pkg/notifications/sorter.go:119-121 says that a message that comes more than three seconds late is relayed
out of order. The bound counts from the other message's submission, and a message that comes later than that can be
overtaken, but need not be (`SorterProtocol.OvertakenIffLate`, `SorterProtocol.StartsAreInOrder`).

## Model

| member | source | states |
|---|---|---|
| Sla.GetSlaOkPercent | schema/mysql/schema.sql:8-161 | it fails exactly if the interval is empty or the downtime counter would leave its unsigned range; for downtimes that do not end before they start it always succeeds; the result is the rounded share of non-problem milliseconds among the known ones, within 0 to 100 percent, and, if downtimes are such and events have different times, these milliseconds are defined by the tables alone: the state in force is that of the last event of the checkable in the interval, before it the state at the start, no downtime covers the time, and it is unknown before an event with previous state 99 |
| Sla.Sweep | schema/mysql/schema.sql:126-156 | the cursor loop computes the number of problem milliseconds and of known milliseconds of the pointwise definition, 0 <= problem_time <= total_time <= end - start and total_time > 0, and it succeeds exactly if the counter stays unsigned |
| Sla.InitialState | schema/mysql/schema.sql:88-124 | the initial state is that of a latest event up to the start, else the previous state of an earliest later event, else the current state or 0 |
| Sla.NetIsCovering | schema/mysql/schema.sql:33-58 | for downtimes that do not end before they start, starts minus ends seen by the cursor is the number of downtimes with start <= t < end |
| Sla.CoveringIsZero | schema/mysql/schema.sql:33-58 | that number is 0 exactly if no downtime of the checkable has start <= t < end |
| Sla.CounterMeansDowntime | schema/mysql/schema.sql:151-155 | with such downtimes the counter never underflows and is 0 exactly outside all downtimes |
| Sla.UnderflowExample | schema/mysql/schema.sql:39-43 | one downtime that ends before it starts, with which the counter underflows |
| Sla.ProblemsAreUncovered | schema/mysql/schema.sql:141-145 | with valid downtimes the counted milliseconds are those of a problem state outside all downtimes and unknown slices |
| Sla.NetRowsOfCursor | schema/mysql/schema.sql:29-81 | whatever order the database gives equal rows, the cursor's downtime rows up to t sum up to starts minus ends of the table |
| Sla.UnderflowWitness | schema/mysql/schema.sql:153-155 | if active_downtimes is 0 at a downtime end, then at that time more downtimes have ended than begun |
| Sla.SliceIsUnknown | schema/mysql/schema.sql:139-140 | every millisecond of a slice that ends at a state row with previous state 99 is unknown in the pointwise sense |
| Sla.SliceIsKnown | schema/mysql/schema.sql:139-146 | no millisecond of any other slice is |
| Sla.SliceMilli | schema/mysql/schema.sql:139-146 | a millisecond of a slice is a problem in the pointwise sense exactly if the loop adds the slice to problem_time |
| Sla.SliceCounts | schema/mysql/schema.sql:139-148 | one round of the loop keeps both counts equal to those of the pointwise definition up to the row's time |
| Sla.OkPercentIsSound | schema/mysql/schema.sql:159-160 | the percentage lies in 0 to 100 and is the nearest value with four decimals |
| Sla.CursorExists | schema/mysql/schema.sql:29-81 | every database and interval has a cursor, so nothing above is about an empty set |
| Sla.CursorDoesNotMatter | schema/mysql/schema.sql:81 | if state changes have different times, both counts are the same for every order that ORDER BY allows |
| Sla.ChangesAreEvents | schema/mysql/schema.sql:60-71 | the state changes of a cursor are exactly the events of the checkable inside the interval, each with its own hard state and previous hard state |
| Sla.InitialIsStateAtStart | schema/mysql/schema.sql:88-124 | what the three SELECTs give is the state at the start by the columns of the tables |
| Sla.StateInForce | schema/mysql/schema.sql:139-150 | at every millisecond, the state in force of the sweep is the hard state of the last event of the checkable up to then, else the initial state |
| Sla.UnknownInTable | schema/mysql/schema.sql:139-140 | a millisecond is unknown for the sweep exactly if the next event of the checkable has previous state 99 and no downtime begins or ends in between |
| Sla.MillisInTable | schema/mysql/schema.sql:126-156 | both counts of the sweep are the numbers of such milliseconds, by the tables alone |
| HaProtocol.RowBeforeFlagStep | pkg/icingadb/ha.go:401-444 | every step keeps: a responsible instance's row is 'y' unless a peer has taken over or removed it since |
| HaProtocol.FlagFollowsRow | pkg/icingadb/ha.go:520-557 | so it is in all states of all runs, since the row is set before the local flag and cleared after it |
| HaProtocol.ResponsibleMeansRow | pkg/icingadb/ha.go:520-629 | over all runs, whatever the table held at first, a responsible instance's row is 'y' unless a peer has since taken over or removed it |
| HaProtocol.LeaseStep | pkg/icingadb/ha.go:333-481 | every step keeps the lease invariant if holders' rows are unexpired when other transactions test them |
| HaProtocol.AtMostOneResponsible | pkg/icingadb/ha.go:253-283 | over runs with failed, late and lost commits, lost heartbeats and removed rows, under that condition at most one instance per environment is responsible or about to be, and its row is then the only one at 'y' |
| HaProtocol.RowStep | pkg/icingadb/ha.go:411-436 | no step makes a second row 'y', although the row is written with takeover or the old flag |
| HaProtocol.AtMostOneResponsibleRow | pkg/icingadb/ha.go:335-481 | a table with at most one 'y' row per environment always has at most one |
| HaProtocol.WrittenColumns | pkg/icingadb/ha.go:401-436 | the UPSERT writes the own row, and the UPDATE on takeover clears exactly the flags of the other rows of the environment and no other column |
| HaTiming.LeaseFromClock | pkg/icingadb/ha.go:378-384 | while deadlines are within the rows' expiry no peer's expiry test succeeds against a holder |
| HaTiming.TimedStepKeepsInv | pkg/icingadb/ha.go:253-268 | every step of the clock or of an instance keeps the bound between deadline and row heartbeat, if the heartbeats that a holder may rely on are fresh |
| HaTiming.FreshHeartbeatsAreSafe | pkg/icingadb/ha.go:195-283 | with fresh heartbeats at most one instance per environment is responsible at any time of any run |
| HaTiming.StaleRowBreaks | pkg/icingadb/ha.go:253-268 | in every state, if a holder starts to realize a heartbeat while the one in its row is stale, there is a fresh continuation in which two instances are responsible |
| HaTiming.StaleMessageBreaks | pkg/icingadb/ha.go:401-411 | the same if the new heartbeat is stale and the transaction makes or keeps the instance responsible |
| HaTiming.RealizeIsSafeIffFresh | pkg/icingadb/ha.go:253-283 | in every state, starting to realize a heartbeat keeps all fresh continuations safe if and only if those heartbeats are fresh |
| HaClock.ClockStepKeepsInv | pkg/icingaredis/heartbeat.go:134-171 | every step of the heartbeat loop's restarting timer, the event buffer and the controller keeps the bounds on what is due |
| HaClock.GivesUpInEveryRun | pkg/icingadb/ha.go:253-283 | in all their runs the timers alone make an instance give up within the timeout and the three delays after it received the heartbeat it is working with |
| HaClock.TimersAllowTick | pkg/icingadb/ha.go:195-283 | as far as the timers of all holders let time pass, the timed protocol does |
| HaClock.HoldsToTheEnd | pkg/icingaredis/heartbeat.go:158-168 | a run of the timers in which it takes that long |
| HaClock.GraceIsExact | pkg/icingadb/ha.go:30-33 | in all runs of the timers the instance has given up before a peer can find its row expired, if and only if message age and delays together are at most the 5 s between the two timeouts |
| HaTiming.LateHeartbeatBreaksLease | pkg/icingadb/ha.go:253-268 | an instance of it: a run from the start in which every message is fresh, but one comes late and its commit fails, and two instances are responsible |
| HaStabilisation.CycleDecreases | pkg/icingadb/ha.go:369-411 | every calm cycle that changes anything decreases the lexicographic measure (responsible instances whose row is 'n', then disorder) |
| HaStabilisation.FixedPointsAreStable | pkg/icingadb/ha.go:520-535 | no cycle changes a state exactly if one instance is responsible and its row is the only one at 'y' |
| HaStabilisation.Converges | pkg/icingadb/ha.go:313-538 | after more rounds than the measure of the start the state is that, and stays so |
| HaStabilisation.RankBound | pkg/icingadb/ha.go:313-538 | the number of rounds is at most quadratic in the number of instances |
| HaStabilisation.RealizedIsCycle | pkg/icingadb/ha.go:369-444 | a transaction with its commit and signal acts on the flags as the abstract cycle does |
| HaStabilisation.SelfStabilises | pkg/icingadb/ha.go:313-538 | from any mix of local and row flags, every calm run of enough rounds ends with exactly one responsible instance and only its row at 'y' |
| Ha.HA.SignalHandover | pkg/icingadb/ha.go:596-611 | the reported state is cleared before the flag, the flag only once the signal is received, and both agree while the context is live |
| Ha.HA.SignalTakeover | pkg/icingadb/ha.go:614-629 | the same for taking over |
| Ha.HA.Realize | pkg/icingadb/ha.go:313-538 | whatever other instances have made of the table before each attempt, the retry loop leaves the table and result of the first attempt that does not merely fail, and the flag and reported state that belong to them, never responsible together with otherResponsible |
| Ha.HA.RealizeLostHeartbeat | pkg/icingadb/ha.go:552-557 | exactly the flag of the own row is cleared if the UPDATE succeeds; all other columns and rows stay |
| Ha.HA.RemoveOldInstances | pkg/icingadb/ha.go:569-593 | exactly the rows of other instances of the same environment and endpoint with a heartbeat older than the peer timeout are removed, and no row is changed |
| Ha.HA.RemoveInstance | pkg/icingadb/ha.go:559-567 | exactly the own row is deleted if the DELETE succeeds |
| Ha.HA.OnLoss | pkg/icingadb/ha.go:279-283 | after a lost heartbeat the handover is signalled if the instance was responsible, and the flag of its row is cleared if the UPDATE succeeds |
| Ha.HA.OnNotificationsHealth | pkg/icingadb/ha.go:285-292 | the time since which notifications are unhealthy is the first one since they were healthy |
| Ha.HA.OnHeartbeat | pkg/icingadb/ha.go:195-278 | the reaction to a message by its conditions: dropped exactly if it is older than the peer timeout, so that a row with its time would be expired; dropped too if notifications have been unhealthy for too long and another instance has a row; the process ends on another environment; all others are realized, with table, flag and liveness after each outcome, and the handover if realize returns after its deadline with whatever result |
| Ha.HA.React | pkg/icingadb/ha.go:206-235 | the tests in their order come to the reaction that those conditions demand |
| Ha.CountsSeveral | pkg/icingadb/ha.go:541-550 | more than one counted instance means two different rows of the environment |
| Ha.LastAttemptIsRun | pkg/icingadb/ha.go:333-481 | an attempt that is confirmed, times out or fails for good is a run of the protocol's steps from any cluster in which it may start |
| Ha.RealizeIsRun | pkg/icingadb/ha.go:253-271 | for every list of attempts, every steps of other instances before each of them, and whether or not the deadline has passed in the end, the table and flag are those after a run of the protocol with all these steps, so what is proved about runs holds for the controller |
| Ha.LossIsRun | pkg/icingadb/ha.go:279-283 | the reaction to a lost, dropped or unhealthy heartbeat is a run of the protocol, with the steps of other instances before the UPDATE |
| Ha.EndIsRun | pkg/icingadb/ha.go:115-124 | so is the end of the process, with its row removed or left behind |
| Ha.RemovalIsStep | pkg/icingadb/ha.go:569-593 | and what RemoveOldInstances does to the table is the step of the protocol that removes expired rows |
| Heartbeat.Heartbeat.SendEvent | pkg/icingaredis/heartbeat.go:192-210 | the newest event replaces one that was not delivered |
| Heartbeat.Heartbeat.OnMessage | pkg/icingaredis/heartbeat.go:137-157 | the first message needs a valid environment, and the published times are those of the newest message or 0 |
| Heartbeat.Heartbeat.OnTimeout | pkg/icingaredis/heartbeat.go:158-168 | a loss is sent once after messages stop, and the published times become 0 |
| Heartbeat.Heartbeat.TakeEvent | pkg/icingaredis/heartbeat.go:54-59 | what HA receives is always the newest event |
| Heartbeat.AppendEvent | pkg/icingaredis/heartbeat.go:158-165 | every loss directly follows a message |
| Paging.MatchingAfter | cmd/icingadb-migrate/misc.go:129-137 | with the k-th match's ID as checkpoint the query matches exactly the later ones, in either direction |
| Paging.SplitIsLossless | cmd/icingadb-migrate/misc.go:92-97 | pages contain each row exactly once and in order |
| Paging.PagesFit | cmd/icingadb-migrate/misc.go:109 | and none is empty or larger than the bulk size |
| Paging.MatchingIff | cmd/icingadb-migrate/misc.go:98-109 | the query selects exactly the rows in the ID range that come after the checkpoint |
| Paging.SliceIdoHistory | cmd/icingadb-migrate/misc.go:98-139 | for every positive bulk size the loop terminates; the pages together have exactly the rows of the table in the ID range beyond the initial checkpoint, each once and in order, and none is empty or larger than the bulk size |
| ChunkCacheTx.NothingDueIsLost | cmd/icingadb-migrate/cache.go:239-273 | a crash loses nothing but the rows after the last time that the commit interval was over |
| PreviousHardState.ProcessRow | cmd/icingadb-migrate/cache.go:167-215 | the statements for one row in all three cases have the effect of one step of the fold |
| PreviousHardState.CacheIsLookBack | cmd/icingadb-migrate/cache.go:166-233 | the backward pass gives each source row exactly one entry: the hard state of the nearest earlier row of the same object that has another one, or 99 |
| PreviousHardState.CheckpointIsLastProcessed | cmd/icingadb-migrate/cache.go:124-145 | the last processed ID is always in next_ids and is its minimum, so the checkpoint is where the committed rows end |
| PreviousHardState.RestIsUnprocessed | cmd/icingadb-migrate/cache.go:157-165 | the rows read from that checkpoint are exactly the unprocessed ones |
| PreviousHardState.Build | cmd/icingadb-migrate/cache.go:116-237 | a run that is not killed leaves the final cache; a killed one leaves that after exactly the rows up to its last due commit, from whatever it found |
| PreviousHardState.BuildWithCrashes | cmd/icingadb-migrate/cache.go:242-273 | any number of killed runs and then one that gets through leave the look-back cache of one uninterrupted pass |
| EventTime.ProcessRow | cmd/icingadb-migrate/cache.go:56-90 | the statements for one event have the effect of one step of the fold |
| EventTime.CacheIsPairing | cmd/icingadb-migrate/cache.go:55-98 | an uninterrupted pass gives an entry to an end event exactly if the directly preceding event of its object is a start, and the entry is that start's time |
| EventTime.Build | cmd/icingadb-migrate/cache.go:27-106 | a run continues the fold after its checkpoint from the tables it finds, and a killed one leaves it after exactly the rows up to its last due commit |
| EventTime.UninterruptedIsPairing | cmd/icingadb-migrate/cache.go:36-103 | the result of such a run from an empty cache is the pairing |
| EventTime.RestartIsInvisibleIff | cmd/icingadb-migrate/cache.go:37-54 | killing and resuming gives the uninterrupted cache exactly if no end between checkpoint and crash is followed there by a start of the same object |
| EventTime.RestartExample | cmd/icingadb-migrate/cache.go:37-54 | three rows for which it does not |
| EventTime.KilledAndResumed | cmd/icingadb-migrate/cache.go:36-103 | the same condition, for the rows that the resumed run really reads |
| Flapping.ConvertFlappingRows | cmd/icingadb-migrate/convert.go:396-538 | the conversion loop on a page gives row by row what the whole cache gives, and the last ID |
| Flapping.PageKeepsEntry | cmd/icingadb-migrate/convert.go:404-418 | selecting cache entries by the page's ID range loses none of its rows |
| Flapping.PeriodsArePairs | cmd/icingadb-migrate/misc.go:268-280 | ends and starts pair in the source exactly as in what the cache filler reads |
| Flapping.PassCacheIsPairing | cmd/icingadb-migrate/misc.go:273-277 | the cache of one pass over the flapping rows has exactly the ends whose directly preceding event of the same object is a start |
| Flapping.StartIsConverted | cmd/icingadb-migrate/convert.go:428-529 | a start yields exactly one insert and one history event, with the name of its object and its own time in milliseconds |
| Flapping.PairedEndFindsStart | cmd/icingadb-migrate/convert.go:430-489 | a paired end yields exactly one upsert and one history event of the kind end, with the flapping_history ID (object name and start time) and the start time of the start's insert, and its own time as the end |
| Flapping.SameIdIffSamePeriod | cmd/icingadb-migrate/convert.go:443-452 | rows have the same flapping_history ID exactly if they are of the same object and of periods with the same start time |
| Flapping.EndIsSkippedIffUnpaired | cmd/icingadb-migrate/convert.go:432-438 | an end is skipped exactly if the directly preceding event of its object is not a start |
| Migration.ApplyAllOutcome | cmd/icingadb-migrate/main.go:441-459 | a row's outcome under INSERT IGNORE and upserts: created by the first statement for its key, updatable columns of the last upsert |
| Migration.AnyExecution | cmd/icingadb-migrate/main.go:442-458 | a batch whose statements for the same row are the same has the same effect in every order and with every repetition |
| Migration.ReplayIsInvisible | cmd/icingadb-migrate/main.go:441-459 | after complete batches and any part of the next one in any order, repeating all statements equals doing them once |
| Migration.BatchIsSafeIffConsistent | cmd/icingadb-migrate/main.go:442-458 | a batch may be interrupted anywhere, reordered and repeated without a trace, if and only if its statements for the same row are the same |
| Migration.DuplicateKeysMatter | cmd/icingadb-migrate/main.go:442-448 | two inserts with the same key for which it may not |
| Migration.MigratedRow | cmd/icingadb-migrate/main.go:432-476 | a migration has a row for each converted record of each page and no others, with columns of records for it, those that an upsert overwrites from an upsert if there is one |
| Migration.WriteBatch | cmd/icingadb-migrate/main.go:442-458 | a killed batch leaves the effect of any selection of its statements in any order, a complete one that of all |
| Migration.WriteStages | cmd/icingadb-migrate/main.go:441-459 | a kill leaves the effect of the batches before and of any part of the current one, inserts of a stage before its upserts |
| Migration.MigrateOneType | cmd/icingadb-migrate/main.go:432-476 | a run killed at any such point, or before the progress row, leaves tables from which the migration completes to the same rows; one that is not killed completes it, with a progress row after which nothing is left |
| Migration.MigrateWithKills | cmd/icingadb-migrate/main.go:432-476 | any number of killed runs and then one that gets through leave the rows of an uninterrupted migration |
| SubmissionHeap.RootIsMinimum | pkg/notifications/sorter.go:107-114 | no element of a heap comes before its first one |
| SubmissionHeap.UpStep | pkg/notifications/sorter.go:73-96 | swapping with the parent leaves a heap but for the parent's place |
| SubmissionHeap.DownStep | pkg/notifications/sorter.go:73-105 | swapping with the child that comes first leaves a heap but for the child's place |
| SubmissionHeap.Submissions.Swap | pkg/notifications/sorter.go:73-74 | two elements change places, none is lost |
| SubmissionHeap.Submissions.Peek | pkg/notifications/sorter.go:107-114 | nothing exactly for an empty queue, otherwise an element that no other comes before |
| SubmissionHeap.Submissions.HeapPush | pkg/notifications/sorter.go:88-96 | the queue stays a heap and gains exactly the new submission |
| SubmissionHeap.Submissions.HeapPop | pkg/notifications/sorter.go:98-105 | it removes what Peek shows, stays a heap, and loses nothing else |
| SorterProtocol.NeverPanics | pkg/notifications/sorter.go:276-303 | while PipelineFunc calls keep their protocol the worker never panics |
| SorterProtocol.NextKeepsInv | pkg/notifications/sorter.go:256-326 | every step of the worker and of its callers keeps the accounting, the order and the closing rules |
| SorterProtocol.BoundedDisorder | pkg/notifications/sorter.go:77-114 | over all runs: a submission with a smaller ID pushed before the other's submit time plus three seconds has its callback started first, across all outputs |
| SorterProtocol.StartsAreInOrder | pkg/notifications/sorter.go:262-273 | when a callback starts, its submission is old enough and nothing that was pushed before and comes first still waits |
| SorterProtocol.LateIsOvertaken | pkg/notifications/sorter.go:119-121 | for all pairs of submissions and push times from the minimum age on there is a run in which the earlier pushed one is started first |
| SorterProtocol.OvertakenIffLate | pkg/notifications/sorter.go:119-121 | so a submission with a smaller ID can be overtaken if and only if it is pushed at or after the other's submit time plus three seconds |
| SorterProtocol.OutputAccounting | pkg/notifications/sorter.go:237-242 | accepted submissions are waiting, running or sent once, to their own output, and pending counts the first two |
| SorterProtocol.ClosedIsLast | pkg/notifications/sorter.go:284-294 | nothing happens on an output after its closing, and before the worker ends it is closed only when all its submissions were sent |
| SorterProtocol.ClosedExactlyOnce | pkg/notifications/sorter.go:244-249 | an output is closed once when the worker has let go of it, and not before |
| StreamSorter.Worker.StartNext | pkg/notifications/sorter.go:262-273 | the top of the loop starts a submission with the smallest ID, of equal ones the earliest, exactly if none is running and it is at least three seconds old, and otherwise sets a timer for the time at which it will be |
| StreamSorter.Worker.StartCallback | pkg/notifications/sorter.go:266-268 | the started submission is the first of the queue, which loses nothing else |
| StreamSorter.Worker.AbandonOut | pkg/notifications/sorter.go:375-381 | a call that could not register closes its output itself |
| StreamSorter.Worker.Forward | pkg/notifications/sorter.go:310-321 | a finished callback's message is sent, counted and, with the last one, its output closed |
| StreamSorter.Worker.Close | pkg/notifications/sorter.go:284-294 | closing waits for pending submissions |
| StreamSorter.Worker.Accept | pkg/notifications/sorter.go:296-304 | an accepted submission is counted and queued |
| StreamSorter.Worker.CloseAll | pkg/notifications/sorter.go:244-249 | after the deferred closing every output has been closed exactly once |
| StreamSorter.Worker.Work | pkg/notifications/sorter.go:228-327 | for all timings and choices of the select, every round does what its case asks for if it is ready: the states before, at and after each select are related so, and the whole is a run of the protocol; the loop ends exactly when the context does, with all outputs closed once |
| StreamSorter.ReadyIsPushed | pkg/notifications/sorter.go:296-304 | a submission that is ready when the select is reached is counted, queued and logged as pushed |
| StreamSorter.CallbackIsSent | pkg/notifications/sorter.go:310-321 | the message of a finished callback is sent, counted, and its output closed if this was its last one and it is to be closed |
| StreamSorter.OutputIsKept | pkg/notifications/sorter.go:276-294 | registering starts with nothing pending, and closing is immediate or deferred |
| StreamSorter.DueIsStarted | pkg/notifications/sorter.go:262-273 | if no callback is running and the first submission is old enough, its callback starts at the next top of the loop; otherwise nothing changes there |
| StreamSorter.TimerWakes | pkg/notifications/sorter.go:270-308 | when the timer has fired, the first submission is old enough at the next top |
| StreamSorter.NothingReadyIsSkipped | pkg/notifications/sorter.go:254-327 | over all rounds, every ready submission is pushed, every ready callback's message sent, and every due submission followed by a start, by the log |
| HistoryPipeline.TakeKeepsStage | pkg/icingadb/history/sync.go:232-254 | receiving an event keeps the counters equal to the entities still waiting |
| HistoryPipeline.ReportKeepsStage | pkg/icingadb/history/sync.go:282-299 | a message is forwarded exactly when its counter reaches 0, and then all its entities are in the database |
| HistoryPipeline.NeverNil | pkg/icingadb/history/sync.go:287-292 | the lookup of a reported entity never fails |
| HistoryPipeline.NextKeepsInv | pkg/icingadb/history/sync.go:82-106 | every step of reader, stages, deletion and restart keeps the pipeline invariant |
| HistoryPipeline.NoEventIsLost | pkg/icingadb/history/sync.go:143-175 | in all runs with any number of stages and restarts, an entry is still in Redis or all entities of all stages are in the database |
| HistoryPipeline.LaterStagesWriteLater | pkg/icingadb/history/sync.go:411-445 | a stage never writes for an entry before all earlier stages have written all of theirs |
| HistoryPipeline.OneStageAtATime | pkg/icingadb/history/sync.go:65-68 | an entry is in one stage at most at each time |
| HistoryProgress.NextKeepsFlow | pkg/icingadb/history/sync.go:110-175 | every step keeps: what was read stays in the pipeline until it leaves Redis, and every waiting entity is to be sent, was sent or was written, unless a stage has failed |
| HistoryProgress.NoEntityIsForgotten | pkg/icingadb/history/sync.go:248-262 | in every run a waiting entity is in insert, in inserted, or ahead of the one being sent |
| HistoryProgress.WorkLowers | pkg/icingadb/history/sync.go:110-311 | every step of a goroutine lowers the number of steps left by the entries in Redis, and no stage fails if all entries can be decoded |
| HistoryProgress.EveryScheduleCompletes | pkg/icingadb/history/sync.go:48-106 | after every run without a failed stage, if all entries in Redis can be decoded, every schedule of the goroutines takes at most that many steps, one of them can go on as long as Redis is not empty, and when none can, all entities of all entries are written |
| HistoryProgress.CanComplete | pkg/icingadb/history/sync.go:48-106 | so from each such state there is a continuation without new entries or restarts that empties Redis and writes everything |
| HistoryProgress.UndecodableStays | pkg/icingadb/history/sync.go:237-240 | an entry that a stage cannot decode never leaves Redis |
| HistoryStage.ReportedLast | pkg/icingadb/history/sync.go:287-293 | in every state of the pipeline the counter reaches 0 only with the last entity of the event |
| HistoryStage.WriteStage.OnEvent | pkg/icingadb/history/sync.go:237-263 | all entities of an event share one State object, which is in the map before any is sent |
| HistoryStage.WriteStage.OnSent | pkg/icingadb/history/sync.go:256-262 | the next entity of the event is sent, one after the other until the last |
| HistoryStage.WriteStage.OnInserted | pkg/icingadb/history/sync.go:282-299 | decrementing the shared counter is the pipeline's step, with no effect on other events |
| Delta.ByIdAt | pkg/icingadb/delta.go:28-29 | the content of a stream without duplicates does not depend on its order |
| Delta.MergeActual | pkg/icingadb/delta.go:65-81 | reading one actual entity keeps the three maps those of what was read |
| Delta.MergeDesired | pkg/icingadb/delta.go:83-100 | the same for a desired entity |
| Delta.DeltaIsOfStreams | pkg/icingadb/delta.go:48-110 | an ID is created exactly if only Redis has it, deleted exactly if only the database has it, and updated only if both have it |
| Delta.DeltaHasEntities | pkg/icingadb/delta.go:63-101 | created and updated are the entities of Redis, deleted those of the database, whatever their place in the streams |
| Delta.UpdatedIffChanged | pkg/icingadb/delta.go:124-143 | an entity of both is updated exactly if the checksums differ, or for types with Equal the other columns, and never if the type cannot be compared |
| Delta.Delta.Run | pkg/icingadb/delta.go:48-110 | for every interleaving Create is desired without actual, Delete actual without desired, Update the common unequal ones, or nil if the type cannot be compared; a cancelled run changes none of them |
| Delta.PartiallyApplied | pkg/icingadb/sync.go:121-187 | the three sets are disjoint: after any part of the operations in any order, touched rows are as they should be and all others as before |
| Delta.AnyOrderRepairs | pkg/icingadb/sync.go:121-187 | all operations in any order give the same table, and no INSERT meets an existing row |
| Delta.RepairedEqualsSnapshot | pkg/icingadb/delta.go:124-143 | the table then has exactly the IDs of the snapshot and its checksums, or the columns that Equal compares; a row is the old one exactly if these were the same, otherwise that of the snapshot |
| Delta.RepairedIsSnapshot | pkg/icingadb/delta.go:129-143 | the table is the snapshot if and only if every common row that differs from it also differs in its checksum, or in what Equal compares |
| Delta.SecondDeltaIsEmpty | pkg/icingadb/delta.go:108-110 | a second delta finds nothing to do |
| Delta.Table.ApplyDelta | pkg/icingadb/sync.go:114-190 | the three writers, however they interleave, leave the repaired table |
| Delta.Sync | pkg/icingadb/sync.go:82-106 | streams and writers in any interleaving leave, for each entity of Redis, the old row if what is compared is the same and the new one otherwise, and no other rows; or the old table if cancelled before |
| RuntimeUpdates.StepKeepsOrder | pkg/icingadb/runtime_updates.go:236-296 | every step of the three goroutines of a type, repeated statements included, keeps the table a fold of its messages |
| RuntimeUpdates.DispatchKeepsInv | pkg/icingadb/runtime_updates.go:355-382 | passing on a message keeps that for all types, and unknown keys stop the reader |
| RuntimeUpdates.SequentiallyConsistent | pkg/icingadb/runtime_updates.go:412-458 | under every schedule at most one operation per type is in flight, and after k tokens the table is the left fold of the first k messages, or of one more while that one is in flight |
| RuntimeUpdates.LastChangeWins | pkg/icingadb/runtime_updates.go:384-458 | after any number of messages the row of an ID is the entity of its last upsert, none if its last change is a deletion, and the old one if there is none |
| RuntimeUpdates.IdleTableIsCurrent | pkg/icingadb/runtime_updates.go:412-458 | under every schedule, whenever the synchronisation of a type is idle, that is the row in the table |
| RuntimeUpdates.ParallelReorders | pkg/icingadb/runtime_updates.go:262-269 | with allowParallel a row may survive its deletion |
| RuntimeUpdates.TypeSync.OnConverted | pkg/icingadb/runtime_updates.go:429-448 | an operation goes to the goroutine for its kind, an invalid one ends structifyStream |
| RuntimeUpdates.TypeSync.ExecUpsert | pkg/icingadb/runtime_updates.go:271-273 | an upsert takes effect once however often it is tried, and then sends one token |
| RuntimeUpdates.TypeSync.ExecDelete | pkg/icingadb/runtime_updates.go:286-295 | the same for a deletion |
| RuntimeUpdates.TypeSync.OnToken | pkg/icingadb/runtime_updates.go:450-454 | when the token arrives the table is the fold of all messages so far |
| DumpSignals.ProcessedSnoc | pkg/icingadb/dump_signals.go:86-115 | what one more entry means for which channels must be closed |
| DumpSignals.EventsAreActions | pkg/icingadb/dump_signals.go:70-117 | each processed entry counts as done exactly if its state is "done", with its own key, in the order of arrival |
| DumpSignals.ErrorsAreActions | pkg/icingadb/dump_signals.go:53-84 | Listen fails only at the end of the context, or at the first entry without a key or a state |
| DumpSignals.NewDumpIsLast | pkg/icingadb/dump_signals.go:110-116 | the first entry that is not done after one that is ends Listen without an error |
| DumpSignals.DumpSignals.Done | pkg/icingadb/dump_signals.go:122-138 | the returned channel is closed exactly if an all-done was processed, or a done for its key after its first request |
| DumpSignals.DumpSignals.ReturnedClosed | pkg/icingadb/dump_signals.go:122-138 | and that stays so at any later time for every returned channel |
| DumpSignals.DumpSignals.OnDone | pkg/icingadb/dump_signals.go:86-109 | a done entry closes just the channels that must be, none of them twice |
| DumpSignals.DumpSignals.OnWip | pkg/icingadb/dump_signals.go:110-116 | the channel of InProgress is closed exactly if an entry that is not done follows one that is, and once |
| DumpSignals.DumpSignals.Listen | pkg/icingadb/dump_signals.go:42-119 | with calls of Done in between anywhere, exactly the entries up to the first bad one, the end of the context or a new dump are processed, all of the above holds, and it returns without an error exactly for a new dump |
| DumpSignals.DumpSignals.ClosedIffDone | pkg/icingadb/dump_signals.go:86-138 | after Listen a returned channel is closed exactly if an entry with state "done" was processed for "*", or for its key after a request for it |

## Left out

- HaClock.GivesUpInEveryRun: takes for granted that each hop takes at most the delay, which includes that the main loop takes the signals in time; what the main loop does after them is not modelled.
- HaClock.GraceIsExact: is about delays below the timeout.
- Ha.RealizeIsRun: has the steps of other instances before each attempt, but not between a commit and its signal; those are in the protocol only.
- HaProtocol.AtMostOneResponsible: assumes the lease; HaTiming has the exact condition on heartbeats under which it holds.
- HaProtocol.AtMostOneResponsibleRow: starts from a table with at most one 'y' row, because a row may be left behind by processes that died.
- HaStabilisation.SelfStabilises: is about the processes that run; a row left at 'y' by a dead process first has to expire.
- Sla.CursorDoesNotMatter: needs state changes at different times, because equal times and priorities may come in any order.
- Sla.GetSlaOkPercent: is stated over the tables for downtimes that do not end before they start and events at different times; else over the cursor's rows. It takes the decimal division as exact and rounded half up to four decimals; the scale that MySQL uses inside is not modelled, nor are 64-bit limits.
- SorterProtocol.BoundedDisorder: is about submissions that the worker accepted; those that time out or have an unparsable ID are only logged by the code.
- HistoryProgress.EveryScheduleCompletes: is about goroutines that go on; when a context ends or a channel closes, the code may stop with events still in flight, and a new process starts again with what is in Redis.
- RuntimeUpdates.SequentiallyConsistent: holds without allowParallel only.
- Delta.Delta.Run: assumes streams without duplicates, as the code asks of its callers.
- Delta.Table.ApplyDelta: assumes that Redis still holds the entities of the snapshot when the writers fetch them.
- Migration.MigrateOneType: assumes that conversion depends on the page only and yields consistent batches, which it does not if, say, one object has two flapping starts in the same millisecond; leaves out the limit for an outdated cache.
- The PostgreSQL function of the same name, whose counters are signed.
- SQL text, drivers, isolation levels, and backoff times.
- Bulking, `UpsertStreamed`, `NamedBulkExec` and `XDelOnAllConsumersAck`: success is reported once for each item and after its write; batches may be any part of what was sent.
- Hash functions are taken to be injective.
- Row IDs of the IDO are positive and below the largest 64-bit integer; rows do not change between two runs.
- Parsing of Redis Stream IDs, JSON decoding, and the other fields of entities.
- The callback's retries in the stream sorter, and the additional synchronisation with an upsert callback in runtime updates.
- Logging, telemetry, configuration, cleanup of old history, overdue checks, building notification events, and fetching relations.
- Context cancellation, except as the end of a run.

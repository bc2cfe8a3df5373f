# Verified model of the HAF serializer

HAF copies a Hive blockchain node into PostgreSQL. This project models the parts where rows cross
threads, crashes and forks, and the hand-written codecs on the way, and proves what they promise.
`dafny verify dfyconfig.toml` checks everything.

## What is modelled

- **Parallel dump** (`DataProcessor`, `Rendezvous`, `Pipeline`, `PipelineRace`, `EndMassiveSync`). N
  writer threads, each with a queue of at most two batches; a counter that fires once all N have
  reported a batch; one more such thread that tells the database. Every critical section is one
  event, so a run is any interleaving of producer, workers, failures, `cancel()` and `join()`.
- **Write-ahead log** (`WalRecord`, `WalLog`, `WalGuarantees`, `WalRecovery`). Framed records,
  rotating files, 31-bit numbers that wrap, garbage collection, reopening and replay, composed with
  the dumper and the database into one crash-recovery protocol down to the bytes on disk.
- **Synchronisation** (`BlockCache`, `Synchronization`, `LiteSync`, `IndexationState`). Seven cached
  tables, split, flushed and rolled back by finality, forks and state changes; LIVE also in lite mode.
- **Live blocks** (`Rendering`, `LivePush`, `LiveDump`, `LiveRace`, `LiveTexts`, `LiveAlone`,
  `LiveWait`). Rows split over writers, rendered in parallel, merged into one push_block command; over
  the same interleavings, with the texts that happen to be there when the counter fires.
- **Codecs** (`Base58`, `CivilDate`, `HexText`, `Utf`, `Jcs`, `JcsOrder`, `NullEscapes`,
  `SqlLiteral`, `CopyTuple`). `Decimal`, `Hex`, `Power`, `Sorting` and `Lexicographic` are what they share.

State that the source updates in place is a class or an array; each such method is proved equal to
a function of the old state, and the theorems are about those functions. The theorems about runs
speak of what the run was given, read off its own actions: the batches and rows, the commands, the
blocks. In the text modules a `char` is one byte.

## Main results

1. *Consistency frontier* (`Pipeline.UncancelledFrontier`, `Pipeline.FrontierIff`,
   `Pipeline.FiringsOrdered`, `Pipeline.LostNeverFires`). Over every interleaving: batches are
   published in increasing order, one at a time; a published batch is in the database with every row
   the run gave for it; no row is there twice, and none that was not given; a batch that a writer
   dropped or failed on is never published. When a batch is published, an earlier one is there
   completely if and only if every writer with rows for it accepted it. If nobody calls `cancel()`,
   that is always so: the published batches are the first that were given and every row up to the
   last of them is in the database. The numbers that the massive sync then tells the database are
   again the first of these, in order (`EndMassiveSync.ToldIsStored`).
2. *Crash recovery* (`WalRecovery.CrashRecovery`). For every run of store, enqueue, execute,
   complete, crash (also in the middle of writing a record, of deleting files or of a replay),
   shutdown (drained, or after a failure anywhere), restart and replay: the executed
   commands are the first ones the run was given, each once and in order; all of them whenever nothing
   is queued or left to replay; and every other one is in a whole record, which is on the disk while
   the node is down, also where opening is refused. From every state that is not torn, and with the same
   hypothesis on it, the node can catch up: some continuation executes them all
   (`WalRecovery.CanCatchUp`). Opening is refused
   exactly in runs that restart after a crash left a torn file. The one hypothesis, on
   restarts, is exact (`WalGuarantees.ReplayExactIff`) and holds by itself from any execution to the
   next shutdown that deletes every file (`WalRecovery.RecoveryFromExecution`).
3. *Cache conservation* (`Synchronization.Conservation`, `Synchronization.FlushedIsFinal`,
   `Synchronization.LiveEntry`). For every run of blocks, finality, forks, replays, interrupts and
   state changes: rows sent followed by rows cached are the rows of the chain that the events
   describe, in every table; before LIVE nothing that is not final is sent; going live flushes each
   remaining block exactly once, alone, until an interrupt. That chain is computed from the events
   alone (`Synchronization.ChainAfter`).
4. *Lite mode* (`LiteSync.LiteConservation`, `LiteSync.LiteSendsFinal`, `LiteSync.LitePushesAll`). For
   every run of a lite node: only final rows are sent and none is taken back; after each block every
   one known to be irreversible has been sent; what is sent and cached is the chain as if the blocks
   discarded on the way into LIVE had never been.
5. *Base 58* (`Base58.Encode`): the canonical numeral, in place, inside the computed area, with a
   carry that never leaves 64 bits.
6. *Canonical JSON* (`Jcs.CanonicalIff`, `JcsOrder.MembersAscend`): two accepted values have the same
   text if and only if they mean the same (section 3.2 of RFC 8785), by a parser and by uniqueness of
   the sorted order. In the text the members of every object stand in ascending order of their keys'
   UTF-16 code units, and every character and number is written in the shortest way there is.
7. *Live commands* (`LiveDump.WaitedRunCommands`, `LiveDump.LiveRunCommands`). Each writer stores its
   text when it finishes a chunk, and a command takes whatever texts are there when the counter
   fires. Over every interleaving with the dumper's wait between blocks, writers failing anywhere: the
   published blocks are the first ones, and the commands are the serial ones of exactly those blocks,
   each with exactly its rows under their table's type (`LivePush.CommandText`). When the wait is needed is exact (`LiveWait.BeginMixesIff`): in every
   state that a run with proper waits reaches with no writer closed or failed, beginning the next block
   can lead to a block fired with a text that is not its own if and only if the current block is not
   published and some writer other than a late one has rows in the next block. A writer is late if it
   is firing the current block, or nobody is and it has not reported that block. Nothing is asked of
   the rows beyond the block row that every live block has. If two writers have rows in the next
   block, the condition is just that the current one is not published (`LiveWait.TwoWritersMixIff`);
   the one case in which an early block does no harm is that only the writer of the block row is late
   and only it has rows.

## Findings

1. `cancel()` stores `_cancel` before it clears `_continue`. In between, a full queue makes
   `enqueue` drop a batch, and a later one may still be accepted and published past it
   (`PipelineRace.RaceLosesABatch`). With N writers a later batch can still be published if and only
   if every writer is open and has not failed (`PipelineRace.LaterFiresIff`,
   `PipelineRace.DropBreaksFrontierIff`). Nothing in the repository calls the outermost `cancel()`:
   `livesync_data_dumper::cancel` and `end_massive_sync_processor::cancel` have no caller. Runs
   without it are free of the race (`Pipeline.UncancelledIsRaceFree`). A `_cancel` stored early also
   ends the live dumper's wait for a writer still at work, after which a command can hold rows of two
   blocks (`LiveRace.MixedBlocks`); it cannot if each block is begun only when no writer at work has
   anything left to report (`LiveDump.LiveRunCommands`).
2. The comment in `end_massive_sync_processor.cpp` that the caller of batch N may be overtaken by
   N+1 describes something that cannot happen: the thread that fires N must itself report N+1.
3. A clean shutdown deletes the log and numbering restarts at 0 while the database keeps its number
   n; a fresh database has none. After a crash before the first execution of such a life, replay with
   n in the lower half of the numbers skips records 0 to n and gives the later ones: a hole, not a
   lost tail (`WalGuarantees.NewLifeReplays`, `WalRecovery.FirstCommandIff`,
   `WalRecovery.NumberingRestarts`).
4. A log file that is empty or ends inside a record makes `open` refuse to start. After a crash while
   storing, opening succeeds if and only if no byte of the record was written and no new file had been
   created for it (`WalRecovery.TornOpensIff`).
5. The thousandth log file of one second sorts before its predecessor (`WalGuarantees.SerialOverflows`).
6. `indexation_state.hpp` calls the argument of `on_switch_fork` the first abandoned block; the
   code keeps that block and erases the ones above it, and so does `on_block_fail`. The model
   follows the code.
7. The flush at shutdown sends the whole P2P cache, also blocks that are not final
   (`Synchronization.CloseSendsReversible`). It sends only final rows if and only if the last cached
   block is final (`Synchronization.CloseSendsFinalIff`).
8. `on_pre_reindex` accepts P2P and REINDEX and puts a dumper in place that discards what it is given.
   If the node then goes live, no row is lost if and only if no cached row is known to be
   irreversible (`Synchronization.ReplayEntryIff`; one run that loses:
   `Synchronization.ReplayDuringSyncLoses`). Every continuation keeps the rows if and only if nothing
   was cached (`Synchronization.ReplaySafeIff`), so the assumption below is exact.
9. In lite mode the entry into LIVE clears the cached blocks that are still reversible, and they are
   never sent, also when they become final. Nothing is lost if and only if no cached block is still
   reversible (`LiteSync.LiteEntryIff`; one run: `LiteSync.LiteEntryLoses`).
10. The comment in `flush_all_cached_data` that the cache of a LIVE node never holds more than one
    irreversible block does not hold in lite mode. The flush at shutdown then fails if and only if
    more than one is cached (`LiteSync.LiteStepKeeps`; one run: `LiteSync.LiteShutdownFails`).
11. Null-escape stripping is not idempotent on broken escapes (`NullEscapes.NotIdempotent`; exactly
    when: `NullEscapes.IdempotentIff`).
12. `escape_sql` writes a NUL as a space and an escape that PostgreSQL rejects; without NUL the
    literal is read back exactly (`SqlLiteral.RoundTripIff`). Its cases for CR, LF, VT and FF are
    never reached, because those characters are not printable.

## Assumptions

- A command and its number are committed in one database transaction, as the log's design intends.
- Bytes passed to `flush` survive a crash; the file being written keeps a prefix of the record.
- One producer stores commands at a time; the clock does not run backwards past the newest log file;
  fewer than 2^30 - 2 records are retained; a command is shorter than about 4 GiB.
- Blocks arrive one after another, finality only grows, forks keep final blocks, and blocks replayed
  from the block log are final.
- A replay is announced with nothing cached. After an interrupt request during the drain into LIVE the
  node only shuts down.
- Every live block has a block row, as the live dumper asserts.
- Clock readings, directory order, thread schedules and failures are parameters of the events.

## Model

| member | source | states |
|---|---|---|
| DataProcessor.NextConsistent | src/sql_serializer/data_processor.cpp:50-103 | every event keeps: queue of at most 2 and equal to the accepted batches not yet popped, reported <= committed <= popped <= reported + 1, what each program point implies, and what a cleared processing flag means |
| DataProcessor.Fifo | src/sql_serializer/data_processor.cpp:50-146 | in every reachable state finished, in-flight and queued batches together are the accepted ones in order |
| DataProcessor.JoinDrains | src/sql_serializer/data_processor.cpp:182-208 | a worker that ended without cancel or failure has committed and reported everything accepted |
| DataProcessor.CompletedMeansIdle | src/sql_serializer/data_processor.cpp:148-172 | the flag complete_data_processing waits for is down, absent cancel and failure, only when nothing is queued, in flight or being fired |
| DataProcessor.ClosedForever | src/sql_serializer/data_processor.cpp:120-146 | a closed processor, or a full one whose worker failed, never accepts again |
| DataProcessor.DropIsFinalIff | src/sql_serializer/data_processor.cpp:120-180 | after a drop a later batch can be accepted if and only if _continue is still set and the worker has not failed |
| DataProcessor.Processor.Offer | src/sql_serializer/data_processor.cpp:120-146 | queues or drops exactly as the event Enqueue, keeping the invariant |
| DataProcessor.Processor.TakeNext | src/sql_serializer/data_processor.cpp:53-66 | takes the oldest batch, or leaves the loop when stopped and empty or cancelled |
| DataProcessor.Processor.NotifyIfDrained | src/sql_serializer/data_processor.cpp:155-161 | lowers the flag only when the queue is empty |
| DataProcessor.Processor.NotifyFinished | src/sql_serializer/data_processor.cpp:148-153 | lowers the flag after an exception or at the end |
| DataProcessor.Processor.HandleException | src/sql_serializer/data_processor.cpp:211-219 | a failed worker is cancelled and closed |
| DataProcessor.Processor.StoreCancel | src/sql_serializer/data_processor.cpp:174-180 | first half of cancel: only _cancel changes |
| DataProcessor.Processor.StopAccepting | src/sql_serializer/data_processor.cpp:182-196 | join closes the queue and changes nothing else |
| Rendezvous.Trigger.ReportCompleteThreadStage | src/sql_serializer/block_num_rendezvous_trigger.cpp:24-54 | counts a report, rejects one too many, fires and forgets the batch at the last one |
| Pipeline.StepKeepsGood | src/sql_serializer/reindex_data_dumper.cpp:21-67 | every step of every run of N writers keeps: accepted batches were offered and are in order, counters equal reports, rows stored once, published batches are complete and increasing, a complete one is published unless a writer still holds it |
| Pipeline.FrontierIff | src/sql_serializer/block_num_rendezvous_trigger.cpp:44-53 | in every run, behind a published batch the rows that the run gave for an earlier one are all in the database if and only if every writer with rows for it accepted it; no row is there twice |
| Pipeline.PublishedIsStored | src/sql_serializer/block_num_rendezvous_trigger.cpp:44-53 | in every run, each batch given and published has all the rows it was given in the database |
| Pipeline.StoredWasGiven | src/sql_serializer/reindex_data_dumper.cpp:54-67 | nothing else is there: every row in the database was given by the run for that batch and writer |
| Pipeline.RunStarts | src/sql_serializer/reindex_data_dumper.cpp:54-67 | the batches of a run are those of its Start actions, with all their rows, in order |
| Pipeline.Frontier | src/sql_serializer/data_processor.cpp:120-146 | in every run without a drop that can be followed by an acceptance, the published batches are the first that were given and every row given up to the last of them is in the database exactly once |
| Pipeline.UncancelledIsRaceFree | src/sql_serializer/data_processor.cpp:174-180 | a run in which nobody calls cancel() has no such drop |
| Pipeline.NeverCancelled | src/sql_serializer/data_processor.cpp:174-180 | nor has a run at whose end no cancel flag is set, because none is ever cleared |
| Pipeline.UncancelledFrontier | src/sql_serializer/block_num_rendezvous_trigger.cpp:44-53 | so its frontier holds without further hypothesis |
| Pipeline.FiringsOrdered | src/sql_serializer/end_massive_sync_processor.cpp:36-43 | in every run calls of the triggered function are strictly increasing, each for a batch that was given, and never overlap |
| Pipeline.FiredIffComplete | src/sql_serializer/block_num_rendezvous_trigger.cpp:39-53 | in every run, with nobody firing and nobody failed, a batch is published if and only if every writer has reported it |
| Pipeline.LostNeverFires | src/sql_serializer/data_processor.cpp:128-140 | in every run and every continuation, a batch that a writer dropped, is closed to, or failed before reporting is never published |
| Pipeline.WritersReachable | src/sql_serializer/reindex_data_dumper.cpp:33-43 | every writer of every run is a processor, so what is proved of one processor holds of it |
| PipelineRace.RaceLosesABatch | src/sql_serializer/data_processor.cpp:174-196 | a run in which batch 3 is dropped during cancel, batch 4 fires and batch 3's row is not in the database |
| PipelineRace.LaterFiresIff | src/sql_serializer/data_processor.cpp:120-146 | in every reachable state of N writers, a batch not yet started can still be published if and only if every writer is open and has not failed |
| PipelineRace.DropBreaksFrontierIff | src/sql_serializer/data_processor.cpp:120-180 | after a drop of the current batch, some continuation publishes a later one while a row of it is missing, if and only if every writer is open and has not failed |
| EndMassiveSync.ToldIsStored | src/sql_serializer/end_massive_sync_processor.cpp:25-43 | in every run without cancel(), failures of any thread included, the numbers the database has been told are the first published ones in order, and every row given for the batches up to the last of them is stored |
| EndMassiveSync.IdleToldAll | src/sql_serializer/reindex_data_dumper.cpp:23-30 | in a run without cancel(), once that thread is done, and neither closed nor failed, every published number has been told |
| WalRecord.ReadWritten | src/sql_serializer/write_ahead_log.cpp:105-148 | a written record is read back exactly from the front of any bytes |
| WalRecord.TornRecord | src/sql_serializer/write_ahead_log.cpp:105-148 | no proper prefix of a record is taken for a record |
| WalRecord.RoundTrip | src/sql_serializer/write_ahead_log.cpp:87-162 | any non-empty list of records, with any SQL bytes, is read back exactly |
| WalRecord.Truncation | src/sql_serializer/write_ahead_log.cpp:151-162 | a non-empty prefix of a file is accepted if and only if it ends on a record boundary, and then gives exactly the complete records |
| WalRecord.ForEachRecord | src/sql_serializer/write_ahead_log.cpp:151-162 | the reading loop: at least one record, then on to the end, None where it throws |
| WalLog.LessIsCircular | src/sql_serializer/write_ahead_log.cpp:258-262 | never both ways, circular order up to 2^30 - 2 steps, undecided exactly at a difference of 2^30 - 1 |
| WalLog.Manager.StoreTransaction | src/sql_serializer/write_ahead_log.cpp:220-255 | file choice, serial number, next number and appended record are those of Store; fails exactly where a new file's name is taken, and then changes nothing |
| WalLog.Manager.TransactionCompleted | src/sql_serializer/write_ahead_log.cpp:265-299 | deletes exactly the leading files Completed drops; refuses on an empty log |
| WalLog.Manager.ReplayTransactionsAfter | src/sql_serializer/write_ahead_log.cpp:337-350 | replays exactly the newer records of the files not skipped |
| WalLog.SelectNewer | src/sql_serializer/write_ahead_log.cpp:345-348 | the records of one file that are newer than a number, in order |
| WalGuarantees.LessInLog | src/sql_serializer/write_ahead_log.cpp:258-262 | on retained records is_less_than is the order in the log, across the wrap |
| WalGuarantees.ReplayIsNewer | src/sql_serializer/write_ahead_log.cpp:337-350 | skipping whole files by their last number loses no record |
| WalGuarantees.ReplayExactIff | src/sql_serializer/sql_serializer.cpp:523-566 | start-up replays exactly the missing records if and only if a retained one was executed, none is retained, or the database's number precedes them all |
| WalGuarantees.NewLifeReplays | src/sql_serializer/write_ahead_log.cpp:337-350 | of records numbered from 0, replay after number n gives those after n, or all, or none, by where n lies on the circle |
| WalGuarantees.CollectsOnlyCompleted | src/sql_serializer/write_ahead_log.cpp:265-299 | only leading files without a record after the completed one are deleted, and all of those but a running node's last |
| WalGuarantees.NameOrder | src/sql_serializer/write_ahead_log.cpp:20-36 | names of files compare as creation time, then serial number |
| WalGuarantees.SerialOverflows | src/sql_serializer/write_ahead_log.cpp:226-243 | serial number 1000 sorts before 999 of the same second |
| WalGuarantees.NewNameIff | src/sql_serializer/write_ahead_log.cpp:226-251 | a new file sorts last if and only if the clock has not gone back and the second has had fewer than 1000 files |
| WalRecovery.TornDiskUnreadable | src/sql_serializer/write_ahead_log.cpp:87-103 | a crash while storing leaves an unreadable file if a byte was written or a new file created, and the old files otherwise |
| WalRecovery.TornRefused | src/sql_serializer/write_ahead_log.cpp:45-78 | a directory with an unreadable file is refused, in whatever order it is listed |
| WalRecovery.TornOpensIff | src/sql_serializer/write_ahead_log.cpp:220-255 | after a crash while storing, opening any listing succeeds if and only if no byte was written and no new file was needed |
| WalRecovery.NameIsFree | src/sql_serializer/write_ahead_log.cpp:226-251 | the name of a new file is never taken |
| WalRecovery.Reopened | src/sql_serializer/write_ahead_log.cpp:202-218 | whatever the directory order, opening rebuilds the same files, records and last number |
| WalRecovery.StepKeeps | src/sql_serializer/livesync_data_dumper.cpp:277-371 | every step, shutdown after a failure with commands left or with one executed and not completed included, keeps: retained records are the last stored commands, executed ones are a prefix, the database's number is the last executed one, queue or replay list is what is missing |
| WalRecovery.CollectKeeps | src/sql_serializer/write_ahead_log.cpp:265-299 | deleting any number of the collected files never removes an unexecuted record, also when none of the retained ones was executed |
| WalRecovery.CompleteCollects | src/sql_serializer/write_ahead_log.cpp:265-299 | a completion leaves at most one file, or a first file that still holds a command to be executed |
| WalRecovery.CrashRecovery | src/sql_serializer/sql_serializer.cpp:523-566 | over all runs with crashes and failures anywhere: executed commands are a prefix of those the run was given, every other one is in a whole record, on the disk while the node is down, all are executed once nothing is queued or left to replay, and opening is refused exactly when a restart follows a crash that left a torn file |
| WalRecovery.RunGives | src/sql_serializer/livesync_data_dumper.cpp:349-354 | the commands stored by a run are those it was given, in order |
| WalRecovery.CanCatchUp | src/sql_serializer/sql_serializer.cpp:523-566 | from every state that is not torn and whose next restart is recoverable some continuation without further commands executes every command given, each once and in order |
| WalRecovery.FilesAreFilled | src/sql_serializer/write_ahead_log.cpp:220-255 | in every such run a file is closed exactly when it has grown past 100 MiB |
| WalRecovery.RefusedIff | src/sql_serializer/write_ahead_log.cpp:45-78 | from any intact state a run ends refused if and only if it restarts after a crash that left a torn file |
| WalRecovery.ExecuteAnchors | src/sql_serializer/sql_serializer.cpp:523-566 | an execution, of a new or a replayed command, puts the database's number into the log or just before it |
| WalRecovery.RecoveryFromExecution | src/sql_serializer/sql_serializer.cpp:523-566 | the same of the given commands, without a hypothesis on restarts, for every continuation that begins with an execution and never shuts down into an empty log |
| WalRecovery.CrashesStayRecoverable | src/sql_serializer/write_ahead_log.cpp:317-350 | once the database's number is in the log or just before it, any run without a shutdown that deletes every file keeps every restart recoverable |
| WalRecovery.ShutdownEmpties | src/sql_serializer/write_ahead_log.cpp:170-179 | a drained node that completed something deletes every file at shutdown |
| WalRecovery.NumberingRestarts | src/sql_serializer/write_ahead_log.cpp:170-179 | after such a shutdown the next life numbers from 0 while the database keeps its number |
| WalRecovery.FirstCommandIff | src/sql_serializer/sql_serializer.cpp:540-548 | the first command of a life, not executed before a crash, is replayed if and only if the database's number precedes 0 circularly |
| BlockCache.MoveItems | src/sql_serializer/indexation_state.cpp:25-37 | splits a table at a block by binary search, moved rows first |
| BlockCache.EraseItems | src/sql_serializer/indexation_state.cpp:39-50 | keeps exactly the rows up to a block |
| BlockCache.SplitOrdered | src/sql_serializer/indexation_state.cpp:52-67 | both parts of seven split tables are ordered, cover their rows with block rows, and together are the whole |
| Synchronization.StepKeeps | src/sql_serializer/indexation_state.cpp:358-584 | no event makes the serializer throw except the two refusals, and every other keeps the invariant |
| Synchronization.Conservation | src/sql_serializer/indexation_state.cpp:586-674 | in every reachable state rows sent, then cached, are the rows of the chain computed from the events alone, table by table |
| Synchronization.ReachesFollows | src/sql_serializer/sql_serializer.cpp:780-788 | collected rows, head, last final and last irreversible block of the node are those that its events give |
| Synchronization.FlushedIsFinal | src/sql_serializer/indexation_state.cpp:108-138 | until LIVE is entered only final rows have been sent, so no fork cuts them |
| Synchronization.LiveFlushIsOneBlock | src/sql_serializer/livesync_data_dumper.cpp:125-126 | every live flush of every run holds one block row and only rows of that block |
| Synchronization.MassiveFlushIsBelow | src/sql_serializer/indexation_state.cpp:591-599 | every massive flush of every run holds only rows up to the number it is announced with |
| Synchronization.LiveEntry | src/sql_serializer/indexation_state.cpp:479-553 | going live from P2P sends the final blocks at once and each other block live exactly once, in order, until none is left or an interrupt; the rest is still cached, and nothing of the events' chain is missing |
| Synchronization.CacheIsBounded | src/sql_serializer/indexation_state.cpp:108-138 | after each P2P block fewer than 1000 blocks that the node was told are irreversible stay cached |
| Synchronization.ReplayIsBounded | src/sql_serializer/indexation_state.cpp:85-91 | during a replay every block up to the last multiple of 1000 has been sent |
| Synchronization.DumpBlocksConserves | src/sql_serializer/indexation_state.cpp:604-623 | the drain flushes each cached block alone and in order, and stops with the rest cached when interrupted |
| Synchronization.ForkCutsCache | src/sql_serializer/indexation_state.cpp:655-674 | a fork that keeps final blocks cuts the chain by cutting the cache only |
| Synchronization.RevertUndoes | src/sql_serializer/include/hive/plugins/sql_serializer/cached_data.h:55-74 | reverting to the sizes before a failed block restores the cache |
| Synchronization.CloseSendsFinalIff | src/sql_serializer/indexation_state.cpp:630-648 | the P2P flush at shutdown sends only final rows if and only if the last cached block is final |
| Synchronization.CloseSendsReversible | src/sql_serializer/indexation_state.cpp:630-648 | a run whose shutdown sends a block that is not final |
| Synchronization.ReplayDuringSyncLoses | src/sql_serializer/indexation_state.cpp:238-253 | a run in which a replay announced during P2P makes the entry into LIVE lose a final cached block |
| Synchronization.ReplayEntryIff | src/sql_serializer/indexation_state.cpp:238-253 | a replay announced during P2P or REINDEX and followed by LIVE loses no row if and only if no cached row is known to be irreversible |
| Synchronization.ReplaySafeIff | src/sql_serializer/indexation_state.cpp:238-253 | every legal continuation of such a replay keeps the rows if and only if nothing was cached |
| LiteSync.LiteStepKeeps | src/sql_serializer/indexation_state.cpp:140-168 | every event of a lite LIVE node keeps the invariant and only adds pushed blocks; a replay fails, and a shutdown if and only if more than one irreversible block is cached |
| LiteSync.TriggerPushes | src/sql_serializer/indexation_state.cpp:140-168 | the lite trigger pushes exactly the irreversible cached blocks, each alone and in order |
| LiteSync.LiteSendsFinal | src/sql_serializer/indexation_state.cpp:140-168 | in every run only final rows have been sent, nothing sent is taken back and no fork cuts it |
| LiteSync.LiteConservation | src/sql_serializer/indexation_state.cpp:532-545 | in every run rows sent, then cached, are the rows of the events' chain as if the blocks discarded on the way in had never been; all of its rows if and only if no such block is left in it |
| LiteSync.LitePushesAll | src/sql_serializer/indexation_state.cpp:140-168 | after each block nothing that the node was told is irreversible is still cached |
| LiteSync.LiteEntryIff | src/sql_serializer/indexation_state.cpp:532-545 | the entry into LIVE loses nothing if and only if no cached block is still reversible |
| LiteSync.LiteEntryLoses | src/sql_serializer/indexation_state.cpp:532-545 | a run whose only block is discarded on the way in |
| LiteSync.LiteShutdownFails | src/sql_serializer/indexation_state.cpp:630-648 | a lite run whose shutdown hands two blocks to the live dumper |
| IndexationState.Indexation.MoveUpTo | src/sql_serializer/indexation_state.cpp:52-67 | all seven tables are split at the same block |
| IndexationState.Indexation.ForceFlush | src/sql_serializer/indexation_state.cpp:591-599 | nothing without a block row; otherwise what the current dumper does, failing on more than one live block |
| IndexationState.Indexation.FlushCache | src/sql_serializer/indexation_state.cpp:591-599 | hands over the whole cache and leaves it empty |
| IndexationState.Indexation.MoveIrreversibleBlocks | src/sql_serializer/indexation_state.cpp:625-628 | flushes the cached rows up to the irreversible block, if one is known |
| IndexationState.Indexation.FlushAllDataToReversible | src/sql_serializer/indexation_state.cpp:604-623 | the loop drains the cache block by block until none is left or an interrupt, and never fails |
| IndexationState.Indexation.TriggerDataFlush | src/sql_serializer/indexation_state.cpp:80-138 | the flush rule of each mode |
| IndexationState.Indexation.OnIrreversibleBlock | src/sql_serializer/indexation_state.cpp:650-653 | remembers the irreversible block |
| IndexationState.Indexation.OnSwitchFork | src/sql_serializer/indexation_state.cpp:655-675 | in P2P erases rows above the block in all seven tables, in LIVE (not lite) queues the rollback |
| IndexationState.Indexation.OnLiteSwitchFork | src/sql_serializer/indexation_state.cpp:655-675 | in lite LIVE erases rows above the block and queues nothing |
| IndexationState.Indexation.LiteFlush | src/sql_serializer/indexation_state.cpp:145-164 | the lite trigger's loop is LiteTrigger and never fails |
| IndexationState.Indexation.OnLiteEndOfSyncing | src/sql_serializer/indexation_state.cpp:479-545 | enters lite LIVE: irreversible rows flushed, the others cleared |
| IndexationState.Indexation.OnEndOfSyncing | src/sql_serializer/indexation_state.cpp:293-300 | enters LIVE without failing and keeps the invariant; LIVE is reached unless interrupted before the last cached block |
| IndexationState.Indexation.BeforeBlock | src/sql_serializer/indexation_state.cpp:302-337 | mode changes before a block, refusing to resume an interrupted massive sync elsewhere than at the next block |
| IndexationState.Indexation.ApplyBlock | src/sql_serializer/sql_serializer.cpp:793-847 | a whole block: mode change, rows cached, flush rule; fails only by the refusal |
| IndexationState.Indexation.OnPreReindex | src/sql_serializer/indexation_state.cpp:238-253 | waits for the replay or for live blocks; refuses to leave LIVE |
| IndexationState.Indexation.OnPostReindex | src/sql_serializer/indexation_state.cpp:255-291 | after a replay flushes everything and stops or goes on to P2P |
| IndexationState.Indexation.FlushAllCachedData | src/sql_serializer/indexation_state.cpp:630-648 | the flush at shutdown |
| Rendering.FlushScalarLiveData | src/sql_serializer/include/hive/plugins/sql_serializer/container_data_writer.h:136-170 | the text of a chunk is the serial rendering of its rows |
| Rendering.Split | src/sql_serializer/include/hive/plugins/sql_serializer/chunks_for_writers_spillter.h:143-163 | each writer gets its consecutive slice |
| Rendering.SlicesPartition | src/sql_serializer/include/hive/plugins/sql_serializer/chunks_for_writers_spillter.h:143-163 | for any number of writers the slices in order are the whole list |
| Rendering.SliceIsShort | src/sql_serializer/include/hive/plugins/sql_serializer/chunks_for_writers_spillter.h:143-163 | no slice is longer than the average, rounded up |
| Rendering.GetMergedStrings | src/sql_serializer/include/hive/plugins/sql_serializer/chunks_for_writers_spillter.h:124-140 | joins the non-empty strings by commas and clears them |
| Rendering.ParallelIsSerial | src/sql_serializer/include/hive/plugins/sql_serializer/chunks_for_writers_spillter.h:124-163 | the merged texts of the slices are the one-writer rendering |
| LivePush.LivesyncDumper.WriterDone | src/sql_serializer/include/hive/plugins/sql_serializer/container_data_writer.h:76-88 | a writer stores the text of its rows, or only reports when it has none |
| LivePush.LivesyncDumper.ExecutePushBlock | src/sql_serializer/livesync_data_dumper.cpp:55-94 | builds the command from the stored texts and clears them |
| LivePush.BuildCommand | src/sql_serializer/livesync_data_dumper.cpp:68-85 | the pieces appended one by one are the call with each table's rows as an array of that table's type |
| LivePush.CommandText | src/sql_serializer/livesync_data_dumper.cpp:71-85 | for all rows the command is the lite or the full call with the block row and, for each table in the order of the parameters, its rows in parentheses under that table's type |
| LivePush.OneBlock | src/sql_serializer/livesync_data_dumper.cpp:55-144 | for any completion order of the writers the command is the serial one and nothing is left behind |
| LivePush.NothingLeftIff | src/sql_serializer/livesync_data_dumper.cpp:56-93 | after a block every text is cleared if and only if it has a block row or no transactions, operations and account operations |
| LivePush.LiveFlushCommand | src/sql_serializer/livesync_data_dumper.cpp:125-144 | every live flush of every synchronisation run becomes one command with one block's rows |
| LiveDump.LiveStepKeeps | src/sql_serializer/livesync_data_dumper.cpp:55-144 | every step of the live writers keeps: the texts are exactly those stored for the block in progress, or no block will be published any more; the commands are the serial ones of the published blocks |
| LiveDump.LiveRunCommands | src/sql_serializer/livesync_data_dumper.cpp:55-144 | every run, with failures and cancel() anywhere, in which a block is begun only when no writer at work has anything left to report: the published blocks are the first that the run began and the commands are exactly theirs |
| LiveDump.WaitedRunCommands | src/sql_serializer/livesync_data_dumper.cpp:125-144 | so it is in every run with the dumper's own wait if nobody calls cancel() |
| LiveDump.WaitsSerial | src/sql_serializer/data_processor.cpp:163-172 | without cancel() the wait ends early only for a writer that has failed |
| LiveDump.WaitedHasPublished | src/sql_serializer/data_processor.cpp:163-172 | once every writer is done, and none closed, cancelled or failed, every started batch is published |
| LiveRace.MixedBlocks | src/sql_serializer/livesync_data_dumper.cpp:136-143 | a run whose command has the block row of one block and the account operation of another: without the wait, or with the wait ended early by cancel() |
| LiveTexts.PublishedNeverMixes | src/sql_serializer/livesync_data_dumper.cpp:136-143 | begun once the current block is published, and with no writer closed or failed, the next block leads to no block fired with a text that is not its own |
| LiveAlone.AloneNeverMixes | src/sql_serializer/livesync_data_dumper.cpp:55-95 | nor does it when the current block is unpublished but nobody except a late writer has rows in the next one |
| LiveWait.BeginMixesIff | src/sql_serializer/livesync_data_dumper.cpp:136-143 | in every state that a run with proper waits reaches with no writer closed or failed and the current block handed over, beginning the next block can lead to a block fired with a text that is not its own if and only if the current one is not published and some writer other than a late one has rows in the next |
| LiveWait.TwoWritersMixIff | src/sql_serializer/livesync_data_dumper.cpp:136-143 | if two writers have rows in the next block, if and only if the current one is not published |
| Base58.Encode | src/sql_serializer/include/hive/plugins/sql_serializer/pqxx_conversions.hpp:248-369 | the text is the canonical base 58 numeral of the big-endian number and a zero byte; nothing is written outside the area and one byte more |
| Base58.Convert | src/sql_serializer/include/hive/plugins/sql_serializer/pqxx_conversions.hpp:308-353 | limb by limb, the short one first, the buffer ends up with the canonical digits |
| Base58.ProcessLimb | src/sql_serializer/include/hive/plugins/sql_serializer/pqxx_conversions.hpp:313-352 | one limb: digits of the number extended by up to seven bytes |
| Base58.TakeBytes | src/sql_serializer/include/hive/plugins/sql_serializer/pqxx_conversions.hpp:313-319 | a limb is the value of its bytes and fits 56 bits |
| Base58.MultiplyDigits | src/sql_serializer/include/hive/plugins/sql_serializer/pqxx_conversions.hpp:328-334 | one pass multiplies the number and adds the carry |
| Base58.PassStep | src/sql_serializer/include/hive/plugins/sql_serializer/pqxx_conversions.hpp:331-333 | each digit step keeps the value, with a carry below 58 times the multiplier, that is at most 58 * 2^56 - 1 |
| Base58.FinishCarry | src/sql_serializer/include/hive/plugins/sql_serializer/pqxx_conversions.hpp:336-351 | the rest of the carry is written in front without leaving the area |
| Base58.CarryNeedsRoom | src/sql_serializer/include/hive/plugins/sql_serializer/pqxx_conversions.hpp:336-351 | a carry of k + 1 digits leaves room for them and makes the number that large |
| Base58.Translate | src/sql_serializer/include/hive/plugins/sql_serializer/pqxx_conversions.hpp:355-368 | in-place translation reads every digit before overwriting it |
| Base58.SkipZeros | src/sql_serializer/include/hive/plugins/sql_serializer/pqxx_conversions.hpp:251-254 | leading zero bytes are dropped |
| Base58.AreaSuffices | src/sql_serializer/include/hive/plugins/sql_serializer/pqxx_conversions.hpp:262-273 | 256^n <= 58^(n * 350 / 256 + 1) for every n |
| Base58.CanonicalUnique | src/sql_serializer/include/hive/plugins/sql_serializer/pqxx_conversions.hpp:355-362 | digit strings without leading zero are determined by their value |
| Base58.TextRoundTrip | src/sql_serializer/include/hive/plugins/sql_serializer/pqxx_conversions.hpp:371-377 | the decoder's table recovers the number from the text |
| CivilDate.RoundTrip | src/sql_serializer/include/hive/plugins/sql_serializer/pqxx_conversions.hpp:453-474 | every 32-bit count gives a valid Gregorian date and time whose second count it is |
| CivilDate.EarlierIff | src/sql_serializer/include/hive/plugins/sql_serializer/pqxx_conversions.hpp:453-474 | dates compare as counts do |
| CivilDate.TextOrder | src/sql_serializer/include/hive/plugins/sql_serializer/pqxx_conversions.hpp:499-520 | the 19 character texts compare lexicographically exactly as the counts do |
| CivilDate.TextReads | src/sql_serializer/include/hive/plugins/sql_serializer/pqxx_conversions.hpp:499-520 | in the text of every 32-bit count the six numbers stand in decimal at their places, with the separators between them |
| CivilDate.IntoBuf | src/sql_serializer/include/hive/plugins/sql_serializer/pqxx_conversions.hpp:499-520 | writes the text and a zero byte and nothing else, or refuses a short buffer |
| HexText.EscBin | src/sql_serializer/include/hive/plugins/sql_serializer/pqxx_conversions.hpp:52-66 | the escaped text and a zero byte, nothing else changed |
| HexText.UnescBin | src/sql_serializer/include/hive/plugins/sql_serializer/pqxx_conversions.hpp:71-94 | the decoding loop, None where it throws |
| HexText.AcceptedIff | src/sql_serializer/include/hive/plugins/sql_serializer/pqxx_conversions.hpp:71-94 | accepted are exactly the prefix followed by pairs of hex digits |
| HexText.BytesOf | src/sql_serializer/include/hive/plugins/sql_serializer/pqxx_conversions.hpp:71-94 | each byte of an accepted text is the value of its pair of digits, in either case |
| Hex.Exact | src/sql_serializer/include/hive/plugins/sql_serializer/pqxx_conversions.hpp:52-94 | digits are written in lower case, and exactly the two spellings of each are read as it |
| HexText.Recovers | src/sql_serializer/include/hive/plugins/sql_serializer/pqxx_conversions.hpp:52-94 | unescaping the escaped bytes gives them back |
| HexText.ExpandPairs | src/sql_serializer/include/hive/plugins/sql_serializer/pqxx_conversions.hpp:573-586 | the backward loop writes every digit pair past all unread bytes |
| HexText.ExpandInPlace | src/sql_serializer/include/hive/plugins/sql_serializer/pqxx_conversions.hpp:566-593 | expanding in the same buffer gives what escaping a copy would |
| HexText.IntoBuf | src/sql_serializer/include/hive/plugins/sql_serializer/pqxx_conversions.hpp:548-593 | packs and expands in the given room, or fails exactly when the escaped text and its zero do not fit; nothing outside the room changes |
| Utf.DecodeAt | src/hive_fork_manager/shared_lib/l2_jcs.cpp:30-40 | one lenient decoding step |
| Utf.Utf8ToUtf16 | src/hive_fork_manager/shared_lib/l2_jcs.cpp:22-51 | the whole decoding loop |
| Utf.UnitsFit | src/hive_fork_manager/shared_lib/l2_jcs.cpp:41-48 | on any bytes, valid UTF-8 or not, every unit is below 2^16, so the casts lose nothing |
| Utf.DecodesUtf16 | src/hive_fork_manager/shared_lib/l2_jcs.cpp:22-51 | on valid UTF-8 the result is the UTF-16 encoding of the same code points |
| Utf.Injective | src/hive_fork_manager/shared_lib/l2_jcs.cpp:22-51 | different valid keys have different UTF-16 forms |
| Jcs.AppendJsonString | src/hive_fork_manager/shared_lib/l2_jcs.cpp:55-83 | appends the quoted, minimally escaped string |
| Jcs.Canonicalize | src/hive_fork_manager/shared_lib/l2_jcs.cpp:86-168 | appends the canonical text, or fails exactly where it throws |
| Jcs.WriteArray | src/hive_fork_manager/shared_lib/l2_jcs.cpp:128-139 | the array loop |
| Jcs.WriteObject | src/hive_fork_manager/shared_lib/l2_jcs.cpp:141-163 | the entries sorted by UTF-16 key order, then written |
| Jcs.AcceptedIff | src/hive_fork_manager/shared_lib/l2_jcs.cpp:86-168 | accepted are exactly the values of JSON kinds without floating point numbers whose integers are within 2^53 - 1 |
| Jcs.KeysComparable | src/hive_fork_manager/shared_lib/l2_jcs.cpp:148-152 | different valid keys are ordered one way or the other |
| Jcs.SortIsForced | src/hive_fork_manager/shared_lib/l2_jcs.cpp:148-152 | with different valid keys every arrangement that std::sort may leave is this one |
| Jcs.ReadEscaped | src/hive_fork_manager/shared_lib/l2_jcs.cpp:55-83 | a reader recovers every string of bytes from its escaped form |
| Jcs.RoundTrip | src/hive_fork_manager/shared_lib/l2_jcs.cpp:86-168 | a parser recovers the meaning of any accepted value from its text, whatever follows |
| Jcs.SameText | src/hive_fork_manager/shared_lib/l2_jcs.cpp:141-163 | values of equal meaning have the same text, whatever the order of entries at any depth and the integer tags |
| Jcs.CanonicalIff | src/hive_fork_manager/shared_lib/l2_jcs.cpp:86-168 | same text if and only if same meaning |
| JcsOrder.KeyOrder | src/hive_fork_manager/shared_lib/l2_jcs.cpp:148-152 | for all code points, keys compare as their UTF-16 code units do, first difference and smaller unit first |
| JcsOrder.MembersAscend | src/hive_fork_manager/shared_lib/l2_jcs.cpp:141-163 | a reader that keeps the order finds each key of every accepted object once, in that ascending order |
| JcsOrder.EscapeIsShortest | src/hive_fork_manager/shared_lib/l2_jcs.cpp:55-83 | no other way of writing a byte that reads back as it is as short, upper-case digits aside |
| JcsOrder.NumberIsShortest | src/hive_fork_manager/shared_lib/l2_jcs.cpp:98-116 | nor is any other text of the same integer |
| NullEscapes.CountTrailing | src/hive_fork_manager/shared_lib/strip_json_null_escapes.cpp:57-62 | the backward count is the number of trailing backslashes |
| NullEscapes.StripCopy | src/hive_fork_manager/shared_lib/strip_json_null_escapes.cpp:31-90 | the copying version deletes null escapes token by token, on every text |
| NullEscapes.StripInPlace | src/sql_serializer/tables_descriptions.cpp:10-38 | so does the in-place version |
| NullEscapes.RoundStep | src/sql_serializer/tables_descriptions.cpp:18-36 | the parity of backslashes at the end of the output is the escape state, across earlier deletions |
| NullEscapes.StripDropsNul | src/sql_serializer/tables_descriptions.cpp:7-10 | on text well formed under section 7 of RFC 8259 exactly the tokens for NUL go |
| NullEscapes.UnitsWithoutNul | src/sql_serializer/tables_descriptions.cpp:7-10 | so the decoded code units are the original ones without zeros |
| NullEscapes.Idempotent | src/sql_serializer/tables_descriptions.cpp:10-38 | stripping well-formed text twice is stripping it once |
| NullEscapes.IdempotentIff | src/sql_serializer/tables_descriptions.cpp:10-38 | on any text, if and only if no deletion completes another null escape |
| NullEscapes.NotIdempotent | src/sql_serializer/tables_descriptions.cpp:10-38 | a text on which the second pass deletes more |
| SqlLiteral.Escape | src/sql_serializer/data_2_sql_tuple_base.cpp:74-170 | both loops and the choice between them |
| SqlLiteral.FastIsSlow | src/sql_serializer/data_2_sql_tuple_base.cpp:78-109 | on printable ASCII the fast path writes what the slow path would |
| SqlLiteral.RoundTripIff | src/sql_serializer/data_2_sql_tuple_base.cpp:74-170 | PostgreSQL reads back exactly the text if it has no NUL and rejects the literal otherwise |
| SqlLiteral.LiteralHarmless | src/sql_serializer/data_2_sql_tuple_base.cpp:74-170 | whatever the text, only printable characters stand between the quotes and none of the five special ones except the backslash of an escape |
| CopyTuple.TupleSize | src/pq_utils/copy_tuples_session.cpp:107-119 | the announced size is the exact one modulo 2^32 |
| CopyTuple.PushFields | src/pq_utils/copy_tuples_session.cpp:130-142 | every field with its size, NULL as the reserved size |
| CopyTuple.PushTuple | src/pq_utils/copy_tuples_session.cpp:102-143 | the size pushed first is the number of body bytes that follow, whenever that fits |
| CopyTuple.NetworkOrder | src/pq_utils/copy_tuples_session.cpp:102-143 | count and sizes are sent most significant byte first, NULL as four bytes of ones |
| CopyTuple.OpenTuple | src/psql_utils/tuple_fields_iterators.cpp:10-29 | a body without room for the count is refused |
| CopyTuple.TuplesFieldIterator.GetNext | src/psql_utils/tuple_fields_iterators.cpp:31-69 | one step of the iterator: end, error, NULL or value |
| CopyTuple.RoundTrip | src/psql_utils/tuple_fields_iterators.cpp:31-69 | iterating a pushed body gives exactly the fields, NULLs and empty values included, then the end |
| CopyTuple.FieldsIff | src/psql_utils/tuple_fields_iterators.cpp:31-69 | on any bytes the iteration ends with given fields if and only if they are the announced number of fields written there, whatever follows |
| CopyTuple.RunsOut | src/psql_utils/tuple_fields_iterators.cpp:31-69 | a tuple that announces more fields than it holds is malformed where they run out |

## Left out

- The database client, reconnection and SQL functions: a command is one opaque database step.
- The synchronous single-transaction flush used when constraints are kept: one transaction, no threads.
- Index, constraint and vacuum scheduling, query supervision, logging and options.
- The reversible and irreversible tables behind push_block, back_from_fork and set_irreversible; a live rollback is taken to remove the rows above its block.
- Row contents: a row is its block number and its rendered text.
- LiveDump.LiveRunCommands: an exception from the triggered function is taken to come before its command is queued.
- LiveWait.BeginMixesIff: for states in which no writer is closed or failed; otherwise the condition of LiveDump.LiveRunCommands is sufficient. No hypothesis on the rows remains, beyond a block row in every block.
- LiveDump.WaitedRunCommands: for runs without cancel(); with it the wait can end early and LiveRace.MixedBlocks is a run that mixes.
- EndMassiveSync.ToldIsStored: for runs without cancel(); with it the drop of finding 1 can hit this processor too.
- EndMassiveSync.IdleToldAll: for runs without cancel(), for the same reason.
- Memory order of the flags outside the mutexes: flag reads and writes are sequentially consistent.
- Pipeline.Frontier: for runs without a drop that can be followed by an acceptance; with one it is false, and Pipeline.FrontierIff says exactly when.
- WalRecovery.CrashRecovery: requires Recoverable at each restart, which is exact there; what a lost command does to later blocks in the database is not modelled.
- WalRecovery.RecoveryFromExecution: a shutdown that deletes every file ends it, because the next life numbers from 0.
- IndexationState.Indexation.ApplyBlock: appends the rows of a block at once, not row by row as they are collected.
- Synchronization.RevertUndoes: covers blocks that fail before anything of them was flushed; the rollback queued for a failed block that was already pushed is not an event.
- Synchronization.FlushedIsFinal: takes blocks replayed from the block log to be final, which the serializer is not told.
- Synchronization.StepKeeps: a replay announced with rows cached is not a legal event; Synchronization.ReplaySafeIff shows that it breaks the invariant.
- HexText.IntoBuf: takes the value already packed; packing itself is not part of this model.
- Utf.Utf8ToUtf16: units are integers; Utf.UnitsFit shows that the 16-bit casts lose nothing.
- Synchronization.CacheIsBounded: bounds blocks known to be irreversible; reversible ones depend on the chain.
- Rendering.Split: the batch length is the exact rounded-up quotient; the source computes it in floating point, which agrees below 2^52 rows, and its 32-bit products are not wrapped.
- Base58.Encode: the input is a separate byte string; checksum and prefix of a public key are not modelled.
- CivilDate.IntoBuf: the two digits of a field are computed, not looked up in the table of pairs.
- SqlLiteral.Escape: takes the code points of the text; the library's UTF-8 decoder is not part of this model.
- Jcs.WriteObject: std::sort is the sorted arrangement; Jcs.SortIsForced shows that it is the only one for different valid keys, and ties between broken keys are broken in entry order.
- CopyTuple.TuplesFieldIterator.GetNext: answers Overrun where the source would read past a malformed tuple.

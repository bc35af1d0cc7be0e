# A replicated block store, modelled and proved

Two servers store 2^30 bytes as 262144 files of 4096 bytes. The primary takes client writes, stages each one in
temp files, logs it, prepares it on the backup, renames the temp files over the blocks, and commits on the backup.
A server that comes up reads its log, pulls what the other server still owes it, repairs by logged state and
truncates the log. A load balancer registers both servers by heartbeat and routes requests.

The model follows that code branch by branch. A server is a class (`BlockServer.Server`) over a map from paths to
bytes, a write-ahead log kept as text, a transaction table and a cache. Each handler is proved to take exactly a
given sequence of atomic steps (`Nodes.Op`), kept in a ghost trace, so that a crash point is a prefix of that
sequence. The theorems are about those sequences: every prefix, every run, every schedule.

| file | about |
|---|---|
| `Storage`, `Decimal`, `AddressTranslation` | files, short writes and renames; decimal text; which files hold an address |
| `WriteAheadLog`, `LogParser` | the printed log, its parser, and their round trip |
| `KeyValueStore`, `ContentCache` | the transaction table and the cache |
| `Nodes`, `Effects`, `CrashAtomicity` | step sequences of the handlers, and what every prefix of them does to blocks |
| `BlockServer`, `Recovery` | the imperative handlers and recovery, proved against those step sequences |
| `WriteEffects`, `RecoveryEffects` | which records, table entries, temp files and undo files a write, a handler and a recovery leave |
| `RecoverySafety`, `SafeRuns` | recovery never damages a block; what logs and files look like over any run |
| `WriteAheadAgreement` | log against table, under any interleaving of writes and of the other server's calls |
| `PeerCommits` | what a recovery's commits do to the other server's files |
| `PrimaryRecovery` | the primary crashes in a write and recovers: when the replicas agree |
| `LeftUnfinished` | which writes a log leaves at REPL_INIT |
| `Divergence`, `CatchUp` | the backup crashes and recovers at will: where the replicas can differ, and what recovery closes |
| `Idempotence`, `Interruptions` | recovery that is itself interrupted, once or any number of times |
| `StaleTemps` | writes that nothing disturbs, over leftover temp files |
| `FlatMemory`, `FlatRuns` | one server as a flat array, without and with failing writes |
| `CacheAgreement` | the cache against uncached reads, also on a server that is replicated to |
| `Concurrency`, `Linearizability` | interleavings on inodes; each block a linearizable register, the same on both servers |
| `Progress` | who waits for whom among them, which operations fail, and that all of them end |
| `Locks`, `LockUse` | lock order, deadlock freedom, release; which lock a request holds at which point, and in which mode |
| `LoadBalancing` | registration, routing, failover |
| `FailingRuns`, `FailingRecoveries` | client requests on newly created storage after which a promise fails |

Automatic induction is switched off on the lemmas, so every induction is written out. `hide` statements only keep
definitions that a proof does not need away from the solver.

## Findings

Where a promise does not hold of the code, the exact condition under which it does is proved. Where it is not plain
that the condition can fail, there is a run of client requests on newly created storage for which it does.

- Replicas can differ although no call has failed, both servers are up and nothing is pending. A write to the last
  4095 addresses is answered NOT_FOUND for want of its second block, and leaves a temp file of the first on the primary
  alone; temp files are opened without truncation, so the next write of that block lets it show through
  (`StaleTempDiverges`, two client writes). A leftover corrupts a block exactly when it is longer than the result, or
  nonzero in a gap between the block's end and the written offset (`StagedExact`). Over every run of writes, crashes and
  recoveries of the backup each difference is accounted for by a pending transaction exactly when no write lets a
  leftover show through unaccounted for (`DivergenceIsAccountedFor`); for a write without faults on replicas that agree,
  exactly when both leftovers show alike (`UndisturbedWriteExactly`). On one server the files are the flat array that
  the writes make exactly when no leftover of a failed write shows (`RunIsFlatExactly`, `RefusedWriteShows`).
- Between the first rename and the REPL_INIT record a primary crash leaves the replicas different, unless those
  renames changed nothing (`PrimaryRecoveryAgreement`, an equivalence; `WindowDoesHarm`).
- A write whose replication stays pending after a successful `Prepare` is parsed back as REPL_INIT. The commit that
  the next recovery sends for it renames whatever temp file then stands under its names: an old one, or that of an
  unrelated write that had only been prepared and is now installed on the backup alone. Outside the window recovery
  restores agreement exactly when neither can change a block (`AgreementExactly`; `HarmfulReplicas` for a run after
  which one can). A block has such a transaction exactly when, since the log was last truncated, a write to it was
  prepared on the backup and its commit call did not return OK (`UnfinishedExactly`).
- `ForcePendingWrites` returns after the first requested transaction. A recovering backup is brought exactly that
  one, its log is truncated, and every other difference stays (`RecoveryClosesFirst`, `CaughtUpExactly`); two missed
  writes are enough (`TwoMissedWrites`). The data travels as C strings: past the first zero byte of an extent the backup
  writes what lies in its own memory (`Garbled`). When the primary restarts its table is empty: then no recovery of the
  backup closes any difference (`ForgottenForGood`).
- Recovery may be interrupted and repeated exactly when no streamed file has, on the other server, a different
  temp file that this recovery's commits rename (`IdempotentExactly`, and `UnsteadyRecovery` for a run after which it
  has); then it may be interrupted any number of times (`ManyInterruptions`).
- With caching on, a client's aligned write leaves an entry that an uncached read contradicts exactly when its buffer
  has a zero byte, or when its commit fails with another error than UNAVAILABLE and an older entry is cached
  (`WriteKeepsAgreementExactly`). `Prepare` and `Commit` change the blocks of a server and not its cache: a
  replicated write makes it stale exactly when the cache has something else for a block that it changes
  (`ReplicaKeepsAgreementExactly`), so that a read which the load balancer sends to the backup returns an old block
  after an ordinary write (`StaleCachedRead`). A client's unaligned write over a cached block does the same on its
  own server (`StaleAfterUnaligned`).
- From the end of its staging on, a write holds the lock of its last block only (`HeldWhileCompleting`): through
  `Prepare`, the renames and `Commit` it excludes others from all that it writes exactly when its address is aligned
  (`ExclusionExactly`).
- The end of any stream that announced itself as primary erases the primary, whose own heartbeats do not register
  it again, and the next answered heartbeat of a backup promotes it exactly then (`PromotionExactly`): two servers
  serve as primary (`TwoPrimaries`, and `TwoPrimariesReached` for a run from the start). A client created for an
  earlier address is kept (`ClientIsStaleExactly`), and a promoted server stays registered as backup too
  (`PromotedIsBoth`).
- `GetData` reads on behind its buffer when the extent has no zero byte. None of that reaches a file, since the
  receiver writes only as many bytes as were asked for (`OverreadIsCutOff`).
- An id whose first record is PENDING_REPLICATION gets the value-initialised state START, so `Recover` returns 0 for
  every text of the log (`Recovery.Recover`), and its -1 branch is dead. No table ever says COMMIT, whether its server
  started a transaction or was asked to prepare it (`NeverCommittedInTable`), so the branch of recovery that tests for
  it is dead as well.

## Model

| member | source | states |
|---|---|---|
| `Decimal.StoiToString` | src/util/address_translation.cc:29-33 | `stoi` undoes `to_string`: the detour of directory and file numbers through text loses nothing |
| `Decimal.DigitsOfToString` | src/util/address_translation.cc:20-33 | `to_string` gives the decimal digits, most significant first, and no leading zero |
| `Decimal.IntToStringInjective` | src/blockstorage_server.cc:457-460 | cache keys of different addresses differ, negative ones included |
| `AddressTranslation.GetAllFileNames` | src/util/address_translation.cc:86-136 | the arithmetic through text yields the extents that `ExtentsAreNamed` describes: none for an address outside [0, 2^30), one for an aligned address, two otherwise |
| `AddressTranslation.ExtentsAreNamed` | src/util/address_translation.cc:20-42 | each extent starts at some a: its file is the root, directory number a / 2^20, "/", and file number a % 2^20 / 4096, its offset a % 4096; the file is a created one if and only if a < 2^30 |
| `AddressTranslation.BlockIsStored` | src/blockstorage_server.cc:752-781 | the created paths, directory numbers below 1024 and file numbers below 256, are those of the blocks below 262144 |
| `AddressTranslation.GetSizeIsRestOfBlock` | src/util/address_translation.cc:75-80 | the first extent runs to the end of its block, for every address |
| `AddressTranslation.BlockPathInjective` | src/util/address_translation.cc:20-42 | different blocks have different paths |
| `AddressTranslation.ExtentsTile` | src/util/address_translation.cc:86-123 | extents have positive sizes that sum to 4096 and map back, in order, to exactly [address, address+4096) |
| `AddressTranslation.ExtentPathsDiffer` | src/util/address_translation.cc:108-123 | the two extents of an unaligned address lie in different files |
| `AddressTranslation.ExtentsAreStored` | src/blockstorage_server.cc:752-781 | all extents are in files that storage preparation creates if and only if address <= 2^30-4096 |
| `BlockServer.PrepareStorage` | src/blockstorage_server.cc:752-781 | exactly these files are there afterwards, besides what was there; new ones are empty, old ones keep their contents |
| `Storage.StagedExact` | src/blockstorage_server.cc:114-153 | a reused temp file yields the spliced block if and only if no stale byte shows through |
| `Storage.TerminatedInMemory` | src/util/crash_recovery.cc:379-399 | what lies at a string's address: the string, a zero byte, and what comes behind it |
| `Storage.CStringWhole` | src/blockstorage_server.cc:159-183 | a C string keeps a buffer whole if and only if it has no zero byte |
| `WriteAheadLog.WAL.LogPrepare` | src/util/wal.cc:23-47 | throws for an empty list and writes nothing; else the text grows by the start line and one move line for each pair: the log is the print of one more record |
| `WriteAheadLog.WAL.LogAbort` | src/util/wal.cc:49-64 | the log is the print of one more abort record |
| `WriteAheadLog.WAL.LogCommit` | src/util/wal.cc:66-81 | the log is the print of one more commit record |
| `WriteAheadLog.WAL.LogReplicationInit` | src/util/wal.cc:83-98 | the log is the print of one more REPL_INIT record |
| `WriteAheadLog.WAL.LogPendingReplication` | src/util/wal.cc:100-115 | the log is the print of one more pending record |
| `WriteAheadLog.RecordText` | src/util/wal.cc:23-115 | the text of each record, letter by letter |
| `LogParser.ParseLine` | src/util/crash_recovery.cc:119-193 | the index arithmetic of one line, failed searches and wrapped lengths included, yields the entry of that line; `ShortLineEntry`, `ThreeFieldEntry` and `LongLineEntry` say which that is |
| `LogParser.LoadData` | src/util/crash_recovery.cc:114-195 | the map is that of absorbing every line of any text in order |
| `LogParser.TextLinesExactly` | src/util/crash_recovery.cc:119-121 | the lines of any text: those that end in a newline, and a last one that does not |
| `LogParser.ShortLineEntry` | src/util/crash_recovery.cc:137-191 | lines of one or two fields: a state if the last field is one of the four words, else both names are made of what there is |
| `LogParser.ThreeFieldEntry` | src/util/crash_recovery.cc:137-191 | with three fields the second name is cut from the start of the line |
| `LogParser.LongLineEntry` | src/util/crash_recovery.cc:137-191 | with four the names are the last two; a fifth costs the second name two characters, or joins it |
| `LogParser.StateLineEntry` | src/util/crash_recovery.cc:149-171 | a printed state line is read as that state of that id |
| `LogParser.MoveLineEntry` | src/util/crash_recovery.cc:172-191 | a printed move line is read as its temp and its original path |
| `LogParser.PendingLineEntry` | src/util/crash_recovery.cc:197-203 | a pending line is no state: it is read as the file names id and PENDING_REPLICATION |
| `LogParser.SummaryGrows` | src/util/crash_recovery.cc:149-191 | one more record changes only its id's entry: the last recognised state wins, names are appended, a pending record adds one pair and leaves the state |
| `LogParser.LogRoundTrip` | src/util/wal.cc:23-115 | for ids and paths without delimiter and newline, parsing the text of any sequence of records gives each id its last recognised state and its names in order |
| `KeyValueStore.KVStore.AddToKVStore` | src/util/kv_store.cc:31-51 | a new id enters with state START, a known one is left alone |
| `KeyValueStore.KVStore.GetStateFromKVStore` | src/util/kv_store.cc:54-71 | the state of a known id, and that an id is unknown |
| `KeyValueStore.KVStore.UpdateStateOnKVStore` | src/util/kv_store.cc:73-80 | the state alone changes; an unknown id gets an empty entry first |
| `KeyValueStore.KVStore.DeleteFromKVStore` | src/util/kv_store.cc:82-99 | exactly the id's entry goes |
| `KeyValueStore.KVStore.GetTransactionDataFromKVStore` | src/util/kv_store.cc:101-120 | the entry, created empty when the id was unknown |
| `ContentCache.Cache.AddToCache` | src/util/cache.cc:3-16 | an existing entry is kept |
| `ContentCache.Cache.GetValueFromCache` | src/util/cache.cc:18-31 | the entry, or nothing |
| `ContentCache.Cache.UpdateCache` | src/util/cache.cc:33-46 | only an existing entry changes |
| `Effects.StagedFromLeftovers` | src/blockstorage_server.cc:100-157 | each temp file ends as the leftover overwritten by the block's first 4096 bytes and then by the piece |
| `Effects.StagedTemps` | src/blockstorage_server.cc:554-581 | when no leftover shows through, each temp file holds its block's old bytes with the write's bytes spliced in |
| `Effects.MovesInstall` | src/blockstorage_server.cc:598-603 | renaming the first k staged files installs exactly those pieces and touches no other block |
| `Effects.MovesWithoutTemps` | src/blockstorage_server.cc:637-643 | renaming a second time changes nothing |
| `CrashAtomicity.PreparePrefix` | src/blockstorage_server.cc:228-278 | `Prepare` cut anywhere changes no block |
| `CrashAtomicity.CommitPrefix` | src/blockstorage_server.cc:280-303 | `Commit` cut anywhere has put exactly a prefix of the temp files in place of their blocks, whatever they hold |
| `CrashAtomicity.WriteCrashExactly` | src/blockstorage_server.cc:548-694 | `Write` cut after any number of steps, over any leftovers and with any files missing: a block is what was staged for it if its rename was among them, and as it was otherwise |
| `CrashAtomicity.BackupCrashExactly` | src/blockstorage_server.cc:228-303 | the same for the backup, cut anywhere in `Prepare` then `Commit` |
| `CrashAtomicity.WriteCrashAtomic` | src/blockstorage_server.cc:548-694 | so when its files exist and no leftover shows through, the pieces renamed so far are installed, and nothing else |
| `CrashAtomicity.BackupCrashAtomic` | src/blockstorage_server.cc:228-303 | the same for the backup |
| `CrashAtomicity.EveryBlockOldOrNew` | src/blockstorage_server.cc:566-603 | each file is its complete old or complete new contents, and the only mixture is first block new, second old |
| `WriteEffects.BooksAfterWrite` | src/blockstorage_server.cc:584-692 | for every outcome of the two calls: which records a write adds, and that an entry stays in the table, pending, if and only if the backup was unavailable; nothing when a file is missing |
| `WriteEffects.TempsAfterWrite` | src/blockstorage_server.cc:554-692 | the temp file of each written block: gone if `Prepare` was answered OK or nobody was there, else as staged when the files up to it exist, and as it was when not |
| `WriteEffects.OtherTempsAfterWrite` | src/blockstorage_server.cc:554-692 | no other temp file changes |
| `WriteEffects.AfterPrepareHandler` | src/blockstorage_server.cc:228-278 | `Prepare`: no block changes; record and entry exactly when all files exist; temp files staged up to the first that is missing |
| `WriteEffects.BooksAfterCommit` | src/blockstorage_server.cc:280-303 | `Commit`: its record, and no entry any more, whatever names it was sent |
| `BlockServer.CutOfExtents` | src/blockstorage_server.cc:554-581 | a 4096-byte buffer is cut into pieces in range, non-empty, in different files |
| `BlockServer.Server.WriteToTempFile` | src/blockstorage_server.cc:100-157 | open, copy, splice: these three steps and no others, or none when the block is missing |
| `BlockServer.Server.WriteToLog` | src/blockstorage_server.cc:185-215 | one record of the given state; throws, without one, for a start with no moves |
| `BlockServer.Server.StageAll` | src/blockstorage_server.cc:554-581 | the extents up to the first missing file are staged, in order; a file may be the temp file of an earlier one |
| `BlockServer.Server.Prepare` | src/blockstorage_server.cc:228-278 | the exact steps for any buffer and any list of files, and an error exactly when a file is missing or the list is empty |
| `BlockServer.Server.Commit` | src/blockstorage_server.cc:280-303 | the exact steps, for any names in the request |
| `BlockServer.Server.GetPendingReplicationTransactions` | src/blockstorage_server.cc:305-323 | each pending id once, and no other |
| `BlockServer.Server.GetData` | src/blockstorage_server.cc:159-183 | the C string that begins with the extent and, when it has no zero byte, runs on into the memory behind the buffer; empty when the file is missing |
| `BlockServer.Server.ForcePendingWrites` | src/blockstorage_server.cc:325-356 | the chunks of the first requested transaction only, each read like that; an unknown id gets an empty entry, else the table is unchanged |
| `BlockServer.Server.GetTransactionState` | src/blockstorage_server.cc:415-421 | the state in the table, or that there is none |
| `BlockServer.Server.Read` | src/blockstorage_server.cc:450-511 | a hit answers from the cache; else the C strings of the extents, cached only when the address had no entry; NOT_FOUND when a file is missing |
| `BlockServer.Server.Write` | src/blockstorage_server.cc:513-703 | the exact steps and cache for every outcome of staging, `Prepare` and `Commit`, invalid addresses and buffers of any length included; on created storage the reply by address and outcomes alone |
| `BlockServer.RepliesExactly` | src/blockstorage_server.cc:513-703 | on storage with exactly the created blocks a write is answered NOT_FOUND if and only if 2^30-4096 < address < 2^30, throws if and only if the address is outside [0, 2^30), and else is answered UNKNOWN if and only if a call failed otherwise than by UNAVAILABLE |
| `BlockServer.ReadsOnStorage` | src/blockstorage_server.cc:469-481 | a read of such storage lacks a file for the same last 4095 addresses and no others; outside the storage it returns nothing |
| `BlockServer.CacheHoldsBuffer` | src/blockstorage_server.cc:535-543 | a successful write leaves its buffer cached, whatever was there; no other content in the cache changes |
| `BlockServer.Server.AfterPrepareCall` | src/blockstorage_server.cc:595-692 | the steps after `Prepare` for its three kinds of outcome |
| `BlockServer.Server.AfterCommitCall` | src/blockstorage_server.cc:613-660 | the steps after `Commit` for its three kinds of outcome |
| `Recovery.DeleteTempAndUndoFiles` | src/util/crash_recovery.cc:240-261 | the exact deletions, at even and odd positions of the names; `RecoveryEffects.RepairOfStart` says which files go |
| `Recovery.ExecuteTransactionAbortRecovery` | src/util/crash_recovery.cc:263-290 | undo renames for all names, then the same deletions; `RecoveryEffects.RepairOfAbort` says what they leave |
| `Recovery.DeleteUndoFiles` | src/util/crash_recovery.cc:340-358 | deletes the undo names of the originals |
| `Recovery.Repair` | src/util/crash_recovery.cc:65-100 | the exact steps on both servers for each parsed state, the effects of which are the four rows of `RecoveryEffects`; it fails exactly for the state without a case |
| `Recovery.PrunePending` | src/util/crash_recovery.cc:401-432 | which pending ids are requested, and that known ones count as committed from then on |
| `Recovery.WriteData` | src/util/crash_recovery.cc:379-399 | `size` bytes in place: the content, its terminator, then whatever lies behind it in memory |
| `Recovery.OverreadIsCutOff` | src/blockstorage_server.cc:169-182 | what is read behind the buffer changes no byte of what the receiver writes |
| `Recovery.Recover` | src/util/crash_recovery.cc:37-112 | for every text of the log it terminates, returns 0, and takes exactly the stated steps on both servers |
| `Recovery.ParsedStates` | src/util/crash_recovery.cc:65-100 | no text yields the state whose case falls through to -1 |
| `RecoveryEffects.RepairOfStart` | src/util/crash_recovery.cc:240-261 | on any disk: of a started transaction the temp files and the undo files of the originals go, and nothing else changes |
| `RecoveryEffects.RepairOfAbort` | src/util/crash_recovery.cc:263-290 | of an aborted one each undo file that is there takes the place of its file before that |
| `RecoveryEffects.RepairOfCommit` | src/util/crash_recovery.cc:340-358 | of a committed one only the undo files of the originals go |
| `RecoveryEffects.RepairOfReplication` | src/util/crash_recovery.cc:292-338 | an interrupted replication changes nothing here and commits there, unless the other server says that it is committed |
| `RecoveryEffects.TempsAfterRecovery` | src/util/crash_recovery.cc:240-290 | after a complete recovery the temp file of a block is gone if a started or aborted transaction that is not pending on the other server names it; every other block's temp file is as it was |
| `RecoveryEffects.PullCreatesNothing` | src/util/crash_recovery.cc:379-399 | what a recovery is sent is written to files that are there, and creates none |
| `RecoveryEffects.LogAfterRecovery` | src/util/crash_recovery.cc:101-112 | and the log is empty |
| `RecoveryEffects.RequestedInOrder` | src/util/crash_recovery.cc:401-432 | the requested transactions are the pending ones that the log does not show committed, in the order in which they were listed |
| `RecoverySafety.ParsedLogIsSummary` | src/util/crash_recovery.cc:114-195 | what the servers log is read back as its summary |
| `RecoverySafety.RecoveryNeverDamagesABlock` | src/util/crash_recovery.cc:240-358 | for every log of whole records, local repairs cut anywhere delete no block and change none |
| `RecoverySafety.WriteStaysSane` | src/blockstorage_server.cc:548-694 | no client write creates an undo file or the temp file of a temp file |
| `RecoverySafety.HandlersStaySane` | src/blockstorage_server.cc:228-303 | nor do `Prepare` and `Commit`, with the names recovery sends |
| `SafeRuns.EveryRunIsSafe` | src/util/crash_recovery.cc:37-112 | from newly created storage, after any run of writes, handlers, crashes and recoveries on both servers, each cut anywhere: logs of whole records, no undo file, no temp file of a temp file |
| `WriteAheadAgreement.CoreOfWrite` | src/blockstorage_server.cc:585-692 | the log and table steps of a write, in order, for all outcomes |
| `WriteAheadAgreement.LogLeadsTable` | src/blockstorage_server.cc:585-692 | under any interleaving of writes and of the other server's `Prepare` and `Commit` calls each write's records are a prefix of an allowed history, and its table entry never runs ahead of them |
| `WriteAheadAgreement.PendingAgreesAtQuiescence` | src/blockstorage_server.cc:644-677 | with no write in flight, pending in the table means last record pending, both ways |
| `WriteAheadAgreement.NeverCommittedInTable` | src/util/kv_store.cc:54-99 | the table never says COMMIT, under any interleaving, for ids of own writes and of calls alike |
| `PrimaryRecovery.LogAt` | src/blockstorage_server.cc:585-623 | which records a write has added after each of its steps |
| `PeerCommits.RepairsMoveFile` | src/util/crash_recovery.cc:292-320 | the commits that recovery sends rename the temp file of a path exactly when an unfinished transaction names it |
| `PeerCommits.CommitCell` | src/blockstorage_server.cc:285-292 | under any such renames a block ends with its temp file's bytes if one renames it and it is there, and as it was otherwise |
| `PrimaryRecovery.RenamesAt` | src/util/crash_recovery.cc:292-338 | for every crash point, which temp files the recovery makes the backup rename |
| `PrimaryRecovery.BackupHere` | src/blockstorage_server.cc:228-303 | the write's blocks and temp files on the backup before, between and after `Prepare` and `Commit` |
| `PrimaryRecovery.PrimaryRecoveryOutcome` | src/util/crash_recovery.cc:37-112 | for every crash point, earlier transactions being harmless: the primary recovers with its own renames, the backup with all of the write if REPL_INIT was logged and none of it otherwise |
| `PrimaryRecovery.PrimaryRecoveryAgreement` | src/blockstorage_server.cc:584-635 | then the replicas agree after recovery if and only if the crash missed the window from the first rename to REPL_INIT or the renames in it changed nothing |
| `PrimaryRecovery.HarmIsDone` | src/util/crash_recovery.cc:292-320 | when they are not harmless, some crash point outside the window leaves the replicas different after every recovery |
| `PrimaryRecovery.AgreementExactly` | src/util/crash_recovery.cc:292-338 | so recovery restores agreement from every crash point outside the window if and only if earlier transactions are harmless |
| `PrimaryRecovery.RecoveryCanRun` | src/util/crash_recovery.cc:60-65 | after every crash point a recovery is possible |
| `FailingRecoveries.NewReplicas` | src/blockstorage_server.cc:584-635 | any first write of a block on newly created storage meets the assumptions, and no earlier transaction is harmful |
| `FailingRecoveries.HarmfulReplicas` | src/util/crash_recovery.cc:197-203 | a run after which the replicas agree and the next client write is not harmless: the backup stopped before a commit and has recovered |
| `FailingRecoveries.WindowDoesHarm` | src/blockstorage_server.cc:597-606 | a client's first write, cut right after its rename: every recovery that follows leaves the replicas different |
| `LeftUnfinished.LeftAtReplInit` | src/blockstorage_server.cc:595-692 | under any interleaving since the last truncation, a finished write is left at REPL_INIT if and only if the backup prepared it and its commit call did not return OK |
| `LeftUnfinished.UnfinishedExactly` | src/util/crash_recovery.cc:197-203 | so at rest a block has an unfinished transaction if and only if some such write names it |
| `Divergence.BackupAtStep` | src/blockstorage_server.cc:228-303 | the backup cut at any step, over any leftovers: which files hold what was staged, lengths and log |
| `Divergence.KvAfterWrite` | src/blockstorage_server.cc:591-692 | a write leaves a pending entry with its extents exactly when the backup was unavailable, else the table as it was |
| `Divergence.DifferenceAfterWrite` | src/blockstorage_server.cc:597-603 | exactly when a byte of a written file differs afterwards: in the written extent when the backup missed it, outside when a leftover shows on one side and not alike on the other |
| `Divergence.BackupRecoverySteps` | src/util/crash_recovery.cc:401-447 | a backup's recovery sends no commit and writes only inside what it is owed |
| `Divergence.StepExactly` | src/blockstorage_server.cc:584-702 | a write with any backup fault, a crash, or a recovery cut at any step keeps every difference accounted for if and only if no leftover shows through unaccounted for |
| `Divergence.StepKeepsShape` | src/blockstorage_server.cc:584-702 | whatever shows, no block goes or becomes shorter, none is longer than a block, and the backup's log and both servers' files stay well formed |
| `Divergence.DivergenceIsAccountedFor` | src/blockstorage_server.cc:584-702 | over every run, at all times each byte that differs lies in an extent of a transaction pending in the primary's table and not committed in the backup's log, if and only if no write lets a leftover show through unaccounted for |
| `Divergence.UsuallyReusable` | src/blockstorage_server.cc:114-153 | no leftover corrupts a block where there is none, the block is whole, or all of it is replaced |
| `Divergence.CleanIsAccounted` | src/blockstorage_server.cc:114-153 | then the write lets nothing show through unaccounted for, whatever befalls the backup |
| `Divergence.WholeRunsAreAccounted` | src/blockstorage_server.cc:114-153 | once every block is whole, none does over any later run, interrupted writes and all |
| `Divergence.NewServersAreShaped` | src/blockstorage_server.cc:752-781 | two servers with newly created storage satisfy what the runs start from |
| `CatchUp.RecoveryClosesFirst` | src/util/crash_recovery.cc:401-447 | after recovery a byte differs if and only if it did before and is not in the one streamed transaction, or it is and a zero byte garbles it |
| `CatchUp.CaughtUpExactly` | src/blockstorage_server.cc:325-356 | no byte differs any more if and only if the streamed transaction covers every difference and is not garbled; with whole blocks the files are then equal |
| `CatchUp.OneOwedIsEnough` | src/util/crash_recovery.cc:401-447 | with at most one transaction owed, and no zero byte in it, no byte differs any more |
| `FailingRuns.TwoMissedWrites` | src/blockstorage_server.cc:351 | a run from newly created storage: two missed writes, after which no complete recovery brings the backup up to date |
| `CatchUp.RestartForgets` | src/blockstorage_server.cc:67 | when the primary starts anew its differences are accounted for if and only if there are none |
| `CatchUp.ForgottenForGood` | src/util/crash_recovery.cc:401-447 | from then on a byte differs over every run of writes to other blocks, crashes and recoveries exactly as it did |
| `Idempotence.PeerTwice` | src/util/crash_recovery.cc:300-320 | commits sent by an interrupted and a repeated recovery end where those of one run end |
| `Idempotence.SamePull` | src/util/crash_recovery.cc:411-446 | when steady, the repetition requests and receives the same writes |
| `Idempotence.RecoveryIsIdempotent` | src/util/crash_recovery.cc:37-112 | cut after any step before the truncation and run again: the same blocks on both servers as one run, for every log |
| `Idempotence.UnsteadyFileDiffers` | src/util/crash_recovery.cc:401-447 | when not steady, the repetition ends with another block |
| `Idempotence.IdempotentExactly` | src/util/crash_recovery.cc:37-112 | so for zero-free data recovery can be interrupted anywhere if and only if it is steady |
| `Interruptions.ManyInterruptions` | src/util/crash_recovery.cc:37-112 | when steady, cut short any number of times before one run gets through: the same blocks on both servers as a single run |
| `FailingRecoveries.UnsteadyRecovery` | src/util/crash_recovery.cc:401-447 | client writes, one of them refused, after which a recovery that is cut short once ends with other blocks than in one go |
| `StaleTemps.UndisturbedWriteExactly` | src/blockstorage_server.cc:114-153 | replicas that agree still agree after a write without failures if and only if, for each file, the leftovers of both servers reach equally far past what is laid over them and hold the same bytes where they show through |
| `FailingRuns.StaleTempDiverges` | src/blockstorage_server.cc:114-153 | two client writes on newly created storage and no fault, after which a byte differs, both servers are up and nothing is pending |
| `FlatMemory.WriteIsFlat` | src/blockstorage_server.cc:513-703 | a successful write changes exactly [address, address+4096) of the flat array, to the buffer |
| `FlatMemory.ReadIsFlat` | src/blockstorage_server.cc:471-510 | a read returns the flat bytes across block and directory boundaries if and only if none of them is zero |
| `FlatMemory.ServerIsFlatMemory` | src/blockstorage_server.cc:100-157 | any sequence of successful writes on created storage acts as on one flat byte array |
| `FlatMemory.NewStorageIsCreated` | src/blockstorage_server.cc:752-781 | the created files are such a storage |
| `FlatRuns.RunIsFlatExactly` | src/blockstorage_server.cc:100-157 | over any requests, at any address and with any outcomes, the files are at all times the flat array that the renamed writes make, if and only if none of these lets a leftover show |
| `FlatRuns.NewStorageIsFlat` | src/blockstorage_server.cc:752-781 | created storage is where such runs start |
| `FailingRuns.RefusedWriteShows` | src/blockstorage_server.cc:114-153 | a refused write and a successful one after which a byte that the latter does not cover has changed |
| `FlatMemory.ReadsWhatWasWritten` | src/blockstorage_server.cc:450-511 | reading a range covered by zero-free writes returns the last byte written to each address |
| `CacheAgreement.ReadKeepsAgreement` | src/blockstorage_server.cc:459-467 | an aligned read keeps the cache right |
| `CacheAgreement.NothingWritten` | src/blockstorage_server.cc:535-579 | so does a write that stages nothing |
| `CacheAgreement.WriteKeepsAgreementExactly` | src/blockstorage_server.cc:628-702 | an aligned write keeps it right if and only if its buffer, or its failed commit, does not mislead |
| `CacheAgreement.ReplicaKeepsAgreementExactly` | src/blockstorage_server.cc:228-303 | a write replicated to a caching server, aligned or not and over any leftovers, keeps its cache right if and only if the cache has nothing else for a block that it changes |
| `CacheAgreement.AlignedReplicaExactly` | src/blockstorage_server.cc:285-292 | for a whole block: if and only if the cache has nothing for it or the content that is written |
| `CacheAgreement.CacheAgreesExactly` | src/blockstorage_server.cc:450-511 | over any run of aligned reads and writes and of replicated writes, each entry with content is at all times what an uncached read returns, if and only if each request meets its condition |
| `CacheAgreement.CacheAlwaysAgrees` | src/util/cache.cc:3-46 | so it is on a server that is not replicated to, for zero-free writes whose commits do not fail otherwise, aborted ones included |
| `FailingRuns.StaleCachedRead` | src/load_balancer.cc:55-84 | a backup caches a block and is replicated to: its next cached read is stale, without failure or zero byte |
| `FailingRuns.StaleAfterUnaligned` | src/blockstorage_server.cc:628-702 | so is that of a cached block after a client's unaligned write over it |
| `Concurrency.WritingIsGentle` | src/blockstorage_server.cc:114-154 | writing a temp file changes no block and no inode that ever was a block |
| `Concurrency.RenamingIsGentle` | src/blockstorage_server.cc:598-603 | a rename puts the temp file's bytes in place and leaves earlier inodes to their readers |
| `Concurrency.OneOwnerPerTemp` | src/blockstorage_server.cc:566-583 | in every interleaving at most one write owns a block's temp file, on the unlocked backup too |
| `Concurrency.TempHoldsItsWrite` | src/blockstorage_server.cc:285-292 | at `Commit` and at the primary's rename the temp file holds exactly the bytes of its write |
| `Concurrency.SameOrderOnBoth` | src/blockstorage_server.cc:548-626 | both servers put the writes of each block in place in the same order, the backup at most one behind |
| `Linearizability.BlocksAreRegisters` | src/blockstorage_server.cc:471-501 | each server's history of effects has one event for each write that was renamed there and each read that opened there, with that operation's path and data, and no other event; it is legal for one register per block, reads return the values of their events, and the files hold the registers |
| `Linearizability.RealTimeOrder` | src/blockstorage_server.cc:471-501 | an operation that has completed comes before every operation that has not begun: with the row above, linearizability |
| `Linearizability.RegisterIsOneWrite` | src/blockstorage_server.cc:471-501 | a register holds the initial block or the data of one of the writes to it, never a mixture |
| `Linearizability.ServersAgree` | src/blockstorage_server.cc:597-626 | from equal blocks, both servers hold equal blocks whenever no write is between its two renames |
| `Progress.ReadersExcludeWriters` | src/blockstorage_server.cc:484 | in every interleaving, while a read of the primary holds the lock of its block no write to that block is between lock and unlock |
| `Progress.EndsExactly` | src/blockstorage_server.cc:474-481 | an operation that has ended has failed if and only if a server that it needs lacks its block |
| `Progress.SomebodyCanGoOn` | src/util/locks.cc:3-27 | in every reachable state some step changes something if and only if an operation has not ended |
| `Progress.StepsEnd` | src/blockstorage_server.cc:548-694 | and each step that changes something leaves fewer to come |
| `Locks.MutexMap.GetReadLock` | src/util/locks.cc:3-9 | one attempt: with no writer one more reader, else nothing; the entry is created on demand |
| `Locks.MutexMap.GetWriteLock` | src/util/locks.cc:11-17 | one attempt: a free lock becomes exclusive, else nothing; the entry is created on demand |
| `Locks.MutexMap.ReleaseReadLock` | src/util/locks.cc:19-22 | one reader fewer |
| `Locks.MutexMap.ReleaseWriteLock` | src/util/locks.cc:24-27 | free |
| `Locks.WriteReleasesAll` | src/blockstorage_server.cc:548-694 | on every return path of `Write` locks are taken in order, at most the next lower block's in hand, log locks last, and none is left held; which ones it holds when is said by the rows of `LockUse` |
| `Locks.ReadReleasesAll` | src/blockstorage_server.cc:471-501 | the same for `Read` on either server, with `LockUse.ReadHoldsOnce` |
| `Locks.HeldWhileCompleting` | src/blockstorage_server.cc:566-694 | at every point from the end of staging to the last release a write holds the lock of its last block and of no other |
| `Locks.ExclusionExactly` | src/blockstorage_server.cc:566 | so at each of them it holds the locks of all blocks it writes if and only if its address is aligned |
| `Locks.CompletingSpans` | src/blockstorage_server.cc:566-694 | these points are those of all log writes, both calls and the renames in between, on every return path |
| `Locks.WaitingGoesUp` | src/util/locks.cc:3-17 | along the wait-for graph the locks that are wanted strictly rise |
| `Locks.NoDeadlock` | src/util/locks.cc:3-27 | no schedule of any number of requests leads to a cycle of waiting threads |
| `Locks.NeverStuck` | src/blockstorage_server.cc:185-215 | as long as a request is not done, some request can go on |
| `Locks.StepsAreProgress` | src/util/locks.cc:3-27 | every step taken shortens what is left, so all requests end |
| `Locks.AllReleasedAtTheEnd` | src/blockstorage_server.cc:693-694 | once all are done every lock is free |
| `Locks.LocksExclude` | src/util/locks.cc:3-17 | two requests hold a lock together only for reading |
| `LockUse.ReadHoldsOnce` | src/blockstorage_server.cc:471-501 | for each extent that a read opens there is exactly one point at which it holds the lock of that block, for reading, and there it holds no other |
| `LockUse.NoWriteWhileReading` | src/blockstorage_server.cc:484 | under any schedule no write holds the block of a read that is at that point |
| `LockUse.StagingHolds` | src/blockstorage_server.cc:548-581 | while it stages, a write holds the lock of its first block, then those of both, then that of the second, for writing |
| `LockUse.WritesExclude` | src/blockstorage_server.cc:566 | a write takes no lock for reading |
| `LockUse.OncePerRecord` | src/blockstorage_server.cc:185-215 | a write holds a server's log lock at one point for each record that it adds to that log; an address without blocks takes it once and throws |
| `LockUse.WaitsExactly` | src/util/locks.cc:3-17 | under any schedule a request waits if and only if it wants a lock that another holds, one of the two for writing |
| `LockUse.OneLogger` | src/blockstorage_server.cc:186 | under any schedule at most one request holds a server's log lock |
| `LoadBalancing.LoadBalancer.GetServerToRouteTo` | src/load_balancer.cc:55-71 | the turn alternates and falls to the other server when one is not registered; whose turn is whose is said by `ReadsTakeTurns` |
| `LoadBalancing.LoadBalancer.RegisterNode` | src/load_balancer.cc:108-114 | the address is replaced, an existing client is not |
| `LoadBalancing.LoadBalancer.EraseNode` | src/load_balancer.cc:116-121 | entry and client go together |
| `LoadBalancing.LoadBalancer.GetPeerIp` | src/load_balancer.cc:123-129 | the peer's address, whose name is BACKUP for PRIMARY and PRIMARY for all others; looking it up leaves an empty entry |
| `LoadBalancing.LoadBalancer.HandleMessage` | src/load_balancer.cc:152-188 | one heartbeat: registration on first contact, erase and register on a change of identity, and the peer in the reply, which `HeartbeatsAnsweredExactly` names |
| `LoadBalancing.LoadBalancer.HandleBreak` | src/load_balancer.cc:190-193 | a stream that ends takes with it the entry and the client of the identity it announced last |
| `LoadBalancing.ClientsAreRegistered` | src/load_balancer.cc:108-195 | over all interleavings of streams and requests the clients are those of the identities with a non-empty address |
| `LoadBalancing.ReadsFindAServer` | src/load_balancer.cc:55-84 | every read goes to a registered server with a client, and with two registered consecutive reads alternate |
| `LoadBalancing.ReadsTakeTurns` | src/load_balancer.cc:55-71 | from the start, with both registered, the nth read goes to BACKUP for odd n and to PRIMARY for even n; with one registered, always to that one |
| `LoadBalancing.AddressesExactly` | src/load_balancer.cc:152-195 | after every run the address of either identity is the last one announced, and none if a stream that stood for it has ended since |
| `LoadBalancing.HeartbeatsAnsweredExactly` | src/load_balancer.cc:123-129 | so the reply to a delivered heartbeat of the primary names exactly that address of the backup, and to one of the backup that of the primary, or no peer |
| `LoadBalancing.ClientIsStaleExactly` | src/load_balancer.cc:108-114 | after a registration the client's address is stale if and only if it was a first contact and a client for another address existed |
| `LoadBalancing.BackupIsNotPromoted` | src/blockstorage_server.cc:963-980 | while no stream that stands for the primary ends, no later step promotes a backup that has seen a peer |
| `LoadBalancing.RegisteredExactly` | src/load_balancer.cc:152-195 | over every run a primary is registered if and only if one was, or has announced itself since, and no stream that stands for the primary has ended after that |
| `LoadBalancing.PromotionExactly` | src/blockstorage_server.cc:963-980 | so after any run the next answered heartbeat of a backup promotes it if and only if that is not so |
| `LoadBalancing.TickDecides` | src/blockstorage_server.cc:963-980 | one round of a server's heartbeat loop: it learns the other identity's address if the reply arrives, and is the primary from then on if it was or the last reply named nobody |
| `LoadBalancing.PromotedExactly` | src/blockstorage_server.cc:963-980 | an answered heartbeat promotes a backup if and only if no primary is registered |
| `LoadBalancing.TwoPrimaries` | src/load_balancer.cc:152-195 | from any state with three such streams, the end of another stream with the primary's identity leads to two primaries |
| `LoadBalancing.TwoPrimariesReached` | src/load_balancer.cc:152-195 | a run from the empty cluster that ends with two servers serving as primary |
| `LoadBalancing.PromotedIsBoth` | src/load_balancer.cc:160-170 | after a failover both names lead to the promoted server |

## Left out

- gRPC, channels, threads, sleeps, command lines and start-up: calls between servers are synchronous steps whose outcome is a parameter, UNAVAILABLE being a fail-stop crash of the other server after any prefix of its handler.
- The kernel file system beyond paths, inodes, bytes and atomic rename; fsync is durable, and each log append is all or nothing.
- The `Sync` handler and `ServiceCommClient`, whose call is commented out, and so writes that run beside a recovery: recoveries start with no write in flight.
- Wall-clock transaction ids: they are parameters, decimal, fresh, and different on the two servers.
- The other server being down during a recovery, both servers down at once, and writes a promoted backup accepts while the old primary recovers.
- Iteration order of `std::map`: any order of the ids is allowed, so nothing proved depends on it; a repeated recovery is given the same list of pending ids, as the same table yields it.
- The field `op` of a parsed log entry, which nothing reads.
- Failing system calls other than a missing file; memory that is read behind a buffer or a short content is a parameter.
- The double slash in the paths storage preparation makes: it names the same files.
- Fairness of the reader/writer mutex: `NeverStuck` says that somebody can go on, not who.
- GetReadLock: one attempt that says whether it succeeded; the waiting between attempts, and when a lock becomes available, is what the thread model says.
- GetWriteLock: the same.
- Concurrency: writes to whole blocks only, the backup up throughout, and the steps stand as programs of their own, not as those of the server class; log and table steps, which touch no file, are in `WriteAheadAgreement` instead.
- Locks: the lock operations of `Write` and `Read` stand as sequences of their own; the server class, which runs one request at a time, takes no locks.
- PrimaryRecovery: the backup has no pending writes of its own to hand over, as a server that has only been backup; for the other direction see `Divergence` and `CatchUp`.
- Divergence: the primary does not restart while a run goes on. A restart empties its table, and `CatchUp.ForgottenForGood` says what becomes of differences then; the commits that its own recovery sends are the subject of `PrimaryRecovery`. The accounting itself fails without any fault when a leftover shows through, as `FailingRuns.StaleTempDiverges` shows.
- IdempotentExactly: zero-free data in the streamed extents, since the stream carries C strings; `RecoveryIsIdempotent` and `ManyInterruptions` need it only when the memory behind the received data changes from run to run.
- CacheAgreement: in the runs clients read and write at block boundaries; `FailingRuns.StaleAfterUnaligned` shows what an unaligned write does.
- SafeRuns: handlers and recoveries run one after another there, each cut anywhere; their interleavings are the subject of `WriteAheadAgreement`, `Concurrency` and `Locks`.
- The cleaning of the cache (`DeleteKey`), which is never called, client retry loops, performance programs, the checksum wrapper and the unused transaction record.

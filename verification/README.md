# GraphflowDB: a verified model of its core

This project models the parts of GraphflowDB where a mistake loses data, returns wrong rows or corrupts memory, and
proves what they guarantee. To check it: `dafny verify dfyconfig.toml`.

**Storage and recovery.** `WalFiles` and `WalReplay` describe a database directory as pairs of original and `.wal` files
and the WAL replayer as a sequence of single-file operations, cut anywhere by a crash, and prove exactly when cuts are
invisible; `WalStatements` applies that to the logs the statements write and to logs they could not. `CrashRecovery` runs
begin, work, log, flush, checkpoint, clear, crash and restart as a step machine and proves crash atomicity.
`VersionedFile` is one versioned file handle with its page-version groups, frames and disk image, and proves what
checkpoint and rollback do to the views of readers and of the writer. `BufferPool` is the clock buffer pool run by one
thread, `PageStore` the plain page store that its runs refine; `ConcurrentPool` is the same pool with page locks, frame locks and pin
counts in every interleaving. `Transactions` is the transaction manager with its two mutexes and the commit protocol of
`Database`.

**Query planning.** `Expressions` gives expressions a three-valued meaning, `QueryPlans` gives logical plans a meaning over
databases, `Subgraphs` has the subgraphs of a query graph and their neighbours, `JoinOrder` is the dynamic-programming
enumerator with its push-down of WHERE conjuncts, `CyclicPlans` constructs the databases on which a plan that crosses a
cycle is wrong, `JoinNodes` says which graphs pass the enumerator's assertion, and `Connectivity` is the binder's check that
gives the enumerator its premise.

**Dates, timestamps and the catalog file.** `Calendar` and `Timestamps` prove the table-driven date conversion against
counting days one by one. `SerDeser`, `CatalogCodec` and `CatalogFile` prove that a saved catalog is read back.

**Execution.** `NullMasks` and `Vectors` prove the four-way flat/unflat executors against a pointwise meaning and in-place
selection against a filter. `TaskTrees` and `TaskScheduling` are the worker pool with dependencies. `Allocator` is the
memory manager with the bump allocator on top, `CsvBlocks` the block-wise CSV reader.

## What the proofs found

Where the code does not keep a property in general, the project proves exactly when it does, and shows a failing input or
family of inputs where one is named.

- A plan in the table denotes "join its subgraph, then filter" if and only if the subgraph has no cycle
  (`JoinOrder.StoredPlanExact`), and a returned plan produces the rows of the query, on every database, if and only if the
  query graph has none (`JoinOrder.PushDownPreservesMeaning`), whatever the WHERE clause is. An index join whose far end is
  bound already, and a hash join whose sides share a second node, do not compare the two values.
- With assertions on, the enumeration of a connected graph gets through if and only if there is no cycle other than a
  relationship from a node to itself (`JoinOrder.EnumerateJoinOrder`, `JoinNodes.OnlySelfLoops`): a relationship from a node
  to itself passes the assertion and gets a wrong plan all the same (`JoinNodes.PassedOverCycle`).
- Replaying the WAL again after a cut is invisible exactly when no operation that shows precedes a rename on its file
  (`WalReplay.ReplayIdempotent`). Logs for which it is not: CREATE and COPY of one table
  (`WalStatements.CreateThenCopyExactly`, `WalStatements.CreateThenCopyLoses`), a page write and a COPY
  (`WalStatements.PageThenCopyExactly`), a relationship table with new node counts
  (`WalStatements.RelTableRecoverableExactly`). No statement writes them, because a connection refuses DDL and COPY inside
  a transaction (`src/main/connection.cpp:257-262`); the logs that statements do write are recoverable
  (`WalStatements.StatementRecoverable`), except that of DROP: it can be replayed again exactly when the crash came before
  the catalog file was overwritten, and otherwise recovery throws (`WalStatements.DropTableRecoverable`).
- `flushAllPages` writes the header with COMMIT before the WAL pages: a torn flush is recovered correctly exactly when each
  page's last WAL image became durable (`WalReplay.TornFlushExact`); else a page may end up neither old nor new
  (`WalReplay.TornFlushTearsPage`).
- `stopNewTransactionsAndWaitUntilAllReadTransactionsLeave` holds the mutex readers need in order to leave: it succeeds
  exactly when there is no reader at the moment it starts to wait (`Transactions.WaitingIsDecided`).
- A second writer gets in exactly when the first one's ID is the value that stands for "no writer"
  (`Transactions.SecondWriterExact`).
- If `finalizeIfNecessary` throws, the exception is missing exactly while its worker is between the throw and `setException`
  (`TaskScheduling.FailureExact`), and a client returns normally over such a task exactly when it tests it in that window
  (`TaskScheduling.NormalReturnExact`, `TaskScheduling.PastFailure`; one such run is
  `TaskScheduling.ReturnsAlthoughFinalizeThrew`). The worker's second deregistration leaves one deregistration too many, so
  the task never counts as completed again and a client still waiting for it waits forever
  (`TaskScheduling.SecondDeregistrationHides`).
- `FromDatetime` accepts dates past the last 64-bit microsecond; its value is exact exactly below that
  (`Timestamps.DatetimeExact`). `b + (a - b)` is `a` exactly if `a` is not before the first
  valid day and the difference fits (`Timestamps.SubtractThenAdd`).
- A CSV block that ends in a comment or a line under two bytes reads the next block's first line too
  (`CsvBlocks.CommentReadsTwice`); the blocks partition the file exactly when that does not happen
  (`CsvBlocks.BlockPartition`). A last line without a newline is never read (`CsvBlocks.LastLineLost`), and a block that
  starts behind the last newline never gets to its first line (`CsvBlocks.FindsLine`).
- A path of the vector executor that trusts its operands to have no nulls leaves nulls that were in the result mask
  (`Vectors.Execute`, at two batches `Vectors.StaleNull`), and `select` with a null flat operand leaves the selection as it
  was (`Vectors.Select`, `Vectors.NullKeepsSelection`).
- A page whose pin throws inside `allocateBlock` is lost: neither free nor handed out (`Allocator.MemoryManager.AllocateBlock`).

## Assumptions

- `flushAllPages` and `clearWAL` are atomic in `CrashRecovery`; a single file operation is not torn.
- Edges connect nodes of the tables their query nodes are bound to (`QueryPlans.DbOk`); node and relationship variables have
  different names.
- A log that is checkpointed in `CrashRecovery` is one whose cuts are invisible (`WalReplay.LogOk`), as the logs of all
  statements but DROP are.
- A holder of a page marks it dirty after writing and before the last unpin; a merged-from overflow buffer is not used again.
- Integers are unbounded where the source's width plays no part; wrap-around is written out in `Calendar` and `Timestamps`.

## Model

| member | source | states |
|---|---|---|
| WalFiles.SlotAbsorbsAll | src/storage/wal_replayer_utils.cpp:111-144 | without a WAL version to rename, doing any of a file's operations beforehand changes nothing that the whole list leaves |
| WalFiles.UnsettledIsVisible | src/storage/wal_replayer_utils.cpp:111-144 | cut just after the rename, a file on which earlier operations show on the renamed contents ends up different |
| WalFiles.CutsInvisibleExactly | src/storage/wal_replayer_utils.cpp:111-144 | any series of cut runs before a whole one is invisible if and only if, on every file, what precedes the first rename of an existing WAL version cannot be seen on its contents |
| WalReplay.WalReplayer.ReplayAll | src/storage/wal_replayer.cpp:373-392 | the loop over the records ends with the directory `Replay` gives, and reports failure exactly when a record throws |
| WalReplay.WalReplayer.ReplayOps | src/storage/wal_replayer_utils.cpp:111-197 | the file operations of one record are performed in order |
| WalReplay.NodeFileOpsOwned | src/storage/wal_replayer_utils.cpp:146-157 | the operations for a node table are the asked-for kind and touch only files of that table |
| WalReplay.RelFileOpsOwned | src/storage/wal_replayer_utils.cpp:159-197 | the operations for a relationship table are the asked-for kind and touch only files of that table, in both directions |
| WalReplay.CreateNodeFilesOwned | src/storage/wal_replayer_utils.cpp:27-46 | creating a node table creates files of that table only |
| WalReplay.ExpandShape | src/storage/wal_replayer.cpp:28-279 | every record expands to operations of its own kind on its own files |
| WalReplay.ExpandStable | src/storage/wal_replayer.cpp:28-240 | a record that does not depend on when the catalog and the statistics are overwritten does the same on the directory of the commit and on any partly replayed one |
| WalReplay.ReachedByAll | src/storage/wal_replayer.cpp:28-240 | the operations of a log lead from a partly replayed directory to another one |
| WalReplay.ReplayIsRun | src/storage/wal_replayer.cpp:373-392 | from every partly replayed directory a replay performs exactly the operations of the first one and does not throw |
| WalReplay.CutIsPrefix | src/storage/wal_replayer.cpp:373-392 | a replay cut anywhere has performed a prefix of those operations |
| WalReplay.PrefixIsCut | src/storage/wal_replayer.cpp:373-392 | and after every prefix of them some cut stops |
| WalReplay.ReplayIdempotent | src/storage/wal_replayer.cpp:28-240 | prefix idempotence, exactly: every finite series of cut recoveries followed by a complete one gives the files of a single replay if and only if every file is settled (see `WalFiles.CutsInvisibleExactly`) |
| WalReplay.ReplayedPage | src/storage/wal_replayer.cpp:28-50 | after replay a page holds its last logged WAL image, or its old contents if it was not logged |
| WalReplay.TornFlushExact | src/storage/wal/wal.cpp:101-106 | recovery from a torn flush rebuilds every logged page exactly when each page's last WAL image is durable |
| WalReplay.TornFlushTearsPage | src/storage/wal/wal.cpp:101-106 | one log and page: with COMMIT durable and the page image not, the page ends up neither old nor new |
| WalStatements.BeforeRenames | src/storage/wal_replayer_utils.cpp:111-144 | operations and then renames of one file: settled if and only if there is nothing to rename or the operations leave the renamed contents as they are |
| WalStatements.CreateThenCopyExactly | src/storage/wal_replayer.cpp:88-110 | CREATE and COPY of one table in one log: recoverable if and only if no file it creates and renames has a WAL version other than what CREATE writes |
| WalStatements.CreateThenCopyLoses | src/storage/wal_replayer.cpp:175-209 | one database on which such a log loses the copied rows |
| WalStatements.PageThenCopyExactly | src/storage/wal_replayer.cpp:175-209 | a page write and a COPY in one log: recoverable if and only if the file is not copied, has no WAL version, or the WAL version has that page |
| WalStatements.RelTableRecoverableExactly | src/storage/wal_replayer.cpp:111-131 | a relationship table and new node statistics in one log: recoverable if and only if the two statistics agree on the tables it joins |
| WalStatements.ReplayAfterCut | src/storage/wal_replayer.cpp:175-273 | a COPY or DROP and a new catalog: a cut before the catalog was overwritten is invisible; after it the record is looked up in the new catalog, and throws if that has no such table |
| WalStatements.DropTableRecoverable | src/storage/wal_replayer.cpp:241-273 | a dropped table is recovered with the files of a single replay if and only if the cut came before the catalog was overwritten, and otherwise the replay throws |
| WalStatements.CopyRecoverableExactly | src/storage/wal_replayer.cpp:175-240 | a COPY with a new catalog is recoverable if and only if the new catalog still has the table and names no further file with a WAL version |
| WalStatements.SteadyThroughout | src/storage/wal_replayer.cpp:28-240 | records that expand alike where the replay starts do so wherever it gets |
| WalStatements.PlainLogOk | src/storage/wal_replayer.cpp:28-240 | such a log is settled if one with a COPY writes no page and creates no table |
| WalStatements.StatementRecoverable | src/main/connection.cpp:257-262 | the complete log of every CREATE, COPY and update can be cut anywhere and replayed any number of times, because no other statement shares its log |
| CrashRecovery.FlushPending | src/main/include/database.h:139-145 | once the log ending in COMMIT is flushed, the files are where a replay of it starts |
| CrashRecovery.PendingReplays | src/main/database.cpp:55-84 | wherever the checkpoint was cut, what is on disk replays to the post image |
| CrashRecovery.OperationKeepsPending | src/storage/wal_replayer.cpp:28-240 | each file operation of the checkpoint is the next of the log's operations |
| CrashRecovery.NextRecordKeepsPending | src/storage/wal_replayer.cpp:389-392 | the next record expands to the next operations of the log and does not throw |
| CrashRecovery.CrashInv | src/main/database.cpp:55-67 | a crash at any step keeps the durable part of the invariant |
| CrashRecovery.RestartInv | src/main/database.cpp:55-84 | recovery replays exactly when the log ends in COMMIT and otherwise clears it |
| CrashRecovery.StepInv | src/main/include/database.h:92-157 | every step of the protocol keeps the invariant |
| CrashRecovery.DecisionStable | src/main/database.cpp:55-67 | between a crash and the next transaction the commit decision does not change |
| CrashRecovery.CrashAtomicity | src/main/database.cpp:55-84 | after completed recovery, with any number of further crashes, the files are the old image or the whole new one, the latter exactly when the log on disk ended in COMMIT |
| CrashRecovery.TransactionAtomicity | src/main/include/database.h:92-157 | whenever no transaction runs, the files are the old image or the whole new one |
| CrashRecovery.RecoveryNeverThrows | src/storage/wal_replayer.cpp:373-392 | a replay in progress never meets a record that throws |
| VersionedFile.TruncatedToLeast | src/storage/wal_replayer.cpp:281-298 | truncating at each insertion record, in any order, leaves the least inserted index |
| VersionedFile.LogMatchesNext | src/storage/storage_structure/storage_structure.cpp:13-23 | logging a page with the next WAL page keeps page versions and log records in correspondence |
| VersionedFile.LoggedVersion | src/storage/buffer_manager/include/versioned_file_handle.h:23-49 | in a transaction a page has a WAL version exactly when it is logged, and pages not on disk are the inserted ones |
| VersionedFile.VersionedFileHandle.CreatePageVersionGroupIfNecessary | src/storage/buffer_manager/versioned_file_handle.cpp:13-34 | creating a group changes no version |
| VersionedFile.VersionedFileHandle.SetWALPageVersion | src/storage/buffer_manager/versioned_file_handle.cpp:36-47 | sets the version of one page and of no other |
| VersionedFile.VersionedFileHandle.ClearWALPageVersionIfNecessary | src/storage/buffer_manager/versioned_file_handle.cpp:49-58 | clears the version of a page the file has and releases its lock; no other version changes |
| VersionedFile.VersionedFileHandle.ResizePageVersions | src/storage/buffer_manager/versioned_file_handle.cpp:77-89 | the groups fit the number of pages and surviving versions are kept |
| VersionedFile.VersionedFileHandle.AddNewPage | src/storage/buffer_manager/file_handle.cpp:83-92 | the new page is the last, has a map entry and no frame; all others keep frame and version |
| VersionedFile.VersionedFileHandle.RemovePageIdxAndTruncateIfNecessary | src/storage/buffer_manager/file_handle.cpp:99-108 | truncates to the index if the file is longer, whatever is on disk, and drops the locks of the removed pages; what remains is unchanged |
| VersionedFile.VersionedFileHandle.CheckpointRecord | src/storage/wal_replayer.cpp:28-50 | disk and resident frame of the page both get the WAL image and its version is cleared |
| VersionedFile.VersionedFileHandle.RollbackRecord | src/storage/wal_replayer.cpp:300-317 | the page's version is cleared and an insertion truncates the file |
| VersionedFile.VersionedFileHandle.CheckpointRecords | src/storage/wal_replayer.cpp:389-392 | all versions are cleared and every reader's page is the writer's old view |
| VersionedFile.VersionedFileHandle.RollbackRecords | src/storage/wal_replayer.cpp:389-392 | the file ends at the least inserted page, surviving versions are cleared and reader views are unchanged |
| VersionedFile.VersionedFileHandle.Replay | src/storage/wal_replayer.cpp:373-392 | outside recovery: throws exactly on a checkpoint without COMMIT; else the view theorem, frames agreeing with the disk |
| VersionedFile.VersionedFileHandle.CreateWALVersionIfNecessary | src/storage/storage_structure/storage_structure_utils.cpp:36-62 | the page gets a WAL version that starts as a copy of what the writer saw, and its lock is held |
| VersionedFile.VersionedFileHandle.UpdatePage | src/storage/storage_structure/storage_structure_utils.cpp:16-23 | changes the writer's view of one page and no reader's view, and gives the lock back |
| VersionedFile.VersionedFileHandle.AddNewPageToFileHandle | src/storage/storage_structure/storage_structure.cpp:13-23 | the new page exists for the writer only, unlocked, even over a version left from a rolled-back page |
| VersionedFile.VersionedFileHandle.Pin | src/storage/storage_structure/storage_structure_utils.cpp:6-14 | a reader gets the disk image of the page, through a frame that agrees with it |
| VersionedFile.VersionedFileHandle.Evict | src/storage/buffer_manager/buffer_pool.cpp:224-226 | evicting a page of the file leaves all frames agreeing with the disk |
| VersionedFile.VersionedFileHandle.LogOther | src/storage/wal/wal.cpp:28-37 | records of other files change nothing the writer sees of this one |
| VersionedFile.VersionedFileHandle.CommitAndCheckpoint | src/main/include/database.h:128-156 | readers then see what the writer saw, and the file is ready for the next transaction |
| VersionedFile.VersionedFileHandle.RollbackAndClear | src/main/include/database.h:146-153 | readers and the writer then see what readers saw before |
| BufferPool.ReplaceKeeps | src/storage/buffer_manager/buffer_pool.cpp:196-259 | writing back an unpinned page and taking its frame changes no stored page and no pin count |
| BufferPool.ReplaceWithin | src/storage/buffer_manager/buffer_pool.cpp:196-259 | a takeover brings no new bytes into the pool and writes back only what is stored |
| BufferPool.ProbedFrame | src/storage/buffer_manager/buffer_pool.cpp:163-179 | the 2*numFrames probes visit every frame once per round in clock order |
| BufferPool.SweptVictim | src/storage/buffer_manager/buffer_pool.cpp:163-203 | the frame a sweep claims is the first ready one, or the first unpinned one of the second round |
| BufferPool.SweptNext | src/storage/buffer_manager/buffer_pool.cpp:196-203 | passing a frame clears its recently-accessed bit only |
| BufferPool.SweptAll | src/storage/buffer_manager/buffer_pool.cpp:163-179 | after two rounds without a victim every frame is pinned and nothing has changed |
| BufferPool.RecentIsIrrelevant | src/storage/buffer_manager/buffer_pool.cpp:196-203 | the recently-accessed bit has no part in what the pool stores |
| BufferPool.FrameChanges | src/storage/buffer_manager/buffer_pool.cpp:149-161 | writing or marking a pinned page keeps the pool consistent and changes only that page |
| BufferPool.RemoveKeeps | src/storage/buffer_manager/buffer_pool.cpp:86-99 | removing a page after a flush loses nothing but what its holder has not marked |
| BufferPool.PinCountChanges | src/storage/buffer_manager/buffer_pool.cpp:130-137 | pinning and unpinning change one pin count and no bytes |
| BufferPool.Pool.Write | src/storage/buffer_manager/buffer_pool.cpp:72-78 | a holder's write changes the stored bytes of that page only |
| BufferPool.Pool.TryEvict | src/storage/buffer_manager/buffer_pool.cpp:196-232 | a recently accessed frame gets its second chance; another is written back if dirty and taken over |
| BufferPool.Pool.ClaimAFrame | src/storage/buffer_manager/buffer_pool.cpp:163-179 | fails exactly when every frame is pinned, else claims exactly the victim of the clock order and moves the hand past it |
| BufferPool.Pool.Pin | src/storage/buffer_manager/buffer_pool.cpp:123-147 | returns the stored bytes of the page, adds one pin, and changes no other page |
| BufferPool.Pool.SetPinnedPageDirty | src/storage/buffer_manager/buffer_pool.cpp:149-161 | throws exactly when the page is not pinned; changes no bytes |
| BufferPool.Pool.Unpin | src/storage/buffer_manager/buffer_pool.cpp:273-284 | takes one pin away and changes no bytes |
| BufferPool.Pool.RemovePageFromFrame | src/storage/buffer_manager/buffer_pool.cpp:86-107 | also of a pinned page: its pins are gone; with the flush only unmarked bytes can be lost, and no other page changes |
| BufferPool.Pool.FlushAllDirtyPagesInFrames | src/storage/buffer_manager/buffer_pool.cpp:109-113 | afterwards no page of the file is in a frame, and each marked page's bytes are on disk |
| PageStore.AllPinned | src/storage/buffer_manager/buffer_pool.cpp:163-179 | every frame is pinned if and only if as many distinct pages are pinned as there are frames |
| PageStore.PinRefines | src/storage/buffer_manager/buffer_pool.cpp:130-147 | a pin keeps the pool in agreement with the store: bytes, pins, and what may be on disk |
| PageStore.StepPin | src/storage/buffer_manager/buffer_pool.cpp:130-147 | a pin is refused if and only if the page is not pinned and numFrames pages are; else it reads the store's bytes |
| PageStore.StepHolder | src/storage/buffer_manager/buffer_pool.cpp:149-161 | writes and marks happen if and only if the page is pinned, the last unpin only once it is marked |
| PageStore.StepRemove | src/storage/buffer_manager/buffer_pool.cpp:86-99 | a removed page keeps its bytes if flushed and marked, and otherwise has bytes it had since it was last removed |
| PageStore.Run | src/storage/buffer_manager/buffer_pool.cpp:72-284 | whole runs: every answer is the one the plain page store gives after the answers before |
| PageStore.WriteSurvives | src/storage/buffer_manager/buffer_pool.cpp:72-284 | in every run a read sees the last write, unless a discard, an unread pin or a flush before the mark came between |
| ConcurrentPool.FrameLockInv | src/storage/buffer_manager/buffer_pool.cpp:181-194 | taking or releasing a frame lock keeps the invariant |
| ConcurrentPool.QuietInv | src/storage/buffer_manager/buffer_pool.cpp:163-179 | looking at frames and giving up on one keep the invariant |
| ConcurrentPool.MovesInv | src/storage/buffer_manager/buffer_pool.cpp:130-284 | the thirteen steps that touch a frame's contents, a swizzled page or the lock of a victim keep the invariant |
| ConcurrentPool.CallStepInv | src/storage/buffer_manager/buffer_pool.cpp:123-161 | the steps that begin and end operations or use a resident page keep it |
| ConcurrentPool.ClaimStepInv | src/storage/buffer_manager/buffer_pool.cpp:163-208 | the steps that look for a frame and lock it keep it |
| ConcurrentPool.EvictStepInv | src/storage/buffer_manager/buffer_pool.cpp:196-230 | the steps of an eviction keep it |
| ConcurrentPool.LoadStepInv | src/storage/buffer_manager/buffer_pool.cpp:130-147 | the steps that load a page keep it |
| ConcurrentPool.StepInv | src/storage/buffer_manager/buffer_pool.cpp:123-284 | every shared-memory step of every operation keeps the invariant |
| ConcurrentPool.PoolSafety | src/storage/buffer_manager/buffer_pool.cpp:130-232 | in every interleaving: an unlocked page is swizzled to a frame exactly when the frame holds it, no two frames hold one page, a pin count is the number of outstanding pins, eviction never dereferences an empty frame |
| ConcurrentPool.PinnedPageNeverMoves | src/storage/buffer_manager/buffer_pool.cpp:204-232 | a page that stays pinned stays in its frame |
| Transactions.LocksKept | src/transaction/transaction_manager.cpp:10-102 | each mutex is held by exactly the thread whose position says so |
| Transactions.SilenceKept | src/transaction/transaction_manager.cpp:79-102 | no step lets a reader in between a stop and the permission to start again |
| Transactions.WritersKept | src/transaction/transaction_manager.cpp:15-22 | the active writer is the one open write transaction |
| Transactions.StepInv | src/transaction/transaction_manager.cpp:10-102 | every step of every thread keeps the invariant |
| Transactions.TransactionSafety | src/transaction/transaction_manager.cpp:10-77 | in every interleaving at most one write transaction is open, IDs strictly increase, lastCommitID counts the COMMIT records, and no reader is active during commit and checkpoint |
| Transactions.SilenceUntilAllowed | src/main/include/database.h:128-156 | once a thread has stopped new transactions, none begins until it allows them |
| Transactions.WaitingIsDecided | src/transaction/transaction_manager.cpp:83-102 | the reader set cannot change while a thread waits: a stop succeeds exactly if it was empty at the start |
| Transactions.SecondWriterExact | src/transaction/include/transaction_manager.h:54-59 | a second writer gets in exactly when the first one's ID equals the sentinel |
| Expressions.DependentVariableNames | src/binder/expression/expression.cpp:6-18 | the loop collects exactly the variables of the expression |
| Expressions.SplitOnAND | src/binder/expression/expression.cpp:48-60 | the loop collects the conjuncts of the split in order |
| Expressions.SplitTrue | src/binder/expression/expression.cpp:48-60 | a predicate is true exactly when every conjunct of its split is, with nulls |
| Expressions.EvalDependsOnVars | src/binder/expression/expression.cpp:6-18 | rows that agree on those variables give the same value |
| QueryPlans.TreesMeetOnce | src/planner/join_order_enumerator.cpp:157-159 | disjoint connected subgraphs whose relationships form no cycle share at most one node |
| QueryPlans.AppendFiltersMeaning | src/planner/join_order_enumerator.cpp:94-101 | appended filters keep exactly the rows on which all of them are true |
| QueryPlans.ScanDenotes | src/planner/join_order_enumerator.cpp:306-317 | a node scan produces exactly the nodes of its table |
| QueryPlans.RestrictionKeepsTruth | src/binder/query/reading_clause/query_graph.cpp:13-26 | a conjunct over a subgraph has the same value on a larger row |
| QueryPlans.ExtendDenotes | src/planner/join_order_enumerator.cpp:319-340 | extending along a relationship joins exactly its edges |
| QueryPlans.HashJoinDenotes | src/planner/join_order_enumerator.cpp:379-410 | a hash join on the shared node joins the two subgraphs and keeps both sides' filters |
| QueryPlans.Derived | src/planner/join_order_enumerator.cpp:306-340 | every row produced has a derivation: the nodes and edges it was read from |
| QueryPlans.DerivedIsProduced | src/planner/join_order_enumerator.cpp:379-410 | and every derivation gives a produced row |
| QueryPlans.DerivedOnce | src/planner/join_order_enumerator.cpp:225-270 | a plan whose extensions add columns and whose hash joins share one node derives each row once |
| QueryPlans.ExtendExact | src/planner/join_order_enumerator.cpp:319-340 | under any local filters, extending along a relationship denotes the larger subgraph if and only if its other end is new or no database has a row to extend |
| CyclicPlans.PlanProduces | src/planner/join_order_enumerator.cpp:319-410 | for every plan of index and hash joins, and every choice of nodes to set low that its filters allow, there are edges from which it produces exactly that row |
| CyclicPlans.ShapedFits | src/planner/join_order_enumerator.cpp:319-410 | a plan in which no join meets a bound column unchecked reads edges that fit that row |
| CyclicPlans.UnshapedIsBetrayed | src/planner/join_order_enumerator.cpp:215-257 | any other plan reads an edge that does not fit it, or filters a column that a hash join then replaces |
| CyclicPlans.UnshapedIsWrong | src/planner/join_order_enumerator.cpp:215-257 | so such a plan does not denote its subgraph, under any conjuncts, bare variables included |
| CyclicPlans.ShapedIsAcyclic | src/planner/join_order_enumerator.cpp:215-257 | a plan of the first kind reads relationships that form no cycle |
| CyclicPlans.BuiltFilters | src/planner/join_order_enumerator.cpp:94-101 | appending conjuncts to a plan keeps it one that the enumerator builds |
| CyclicPlans.ParallelRelationships | src/planner/join_order_enumerator.cpp:145-170 | two parallel relationships: the first index join is right, the second is not, and its wrong rows stay in the complete plan |
| Expressions.SplitHasNoAnd | src/binder/expression/expression.cpp:48-60 | no conjunct of a split is itself an AND |
| JoinOrder.NewMatchedExpressions | src/planner/join_order_enumerator.cpp:447-473 | the loop collects the newly matched conjuncts in order |
| JoinOrder.GrowingApplies | src/planner/join_order_enumerator.cpp:447-458 | applied and newly matched conjuncts together are those due on the larger subgraph, each once |
| JoinOrder.JoiningApplies | src/planner/join_order_enumerator.cpp:460-473 | no conjunct is applied on both sides of a hash join, and none is missed |
| JoinOrder.ScanEntry | src/planner/join_order_enumerator.cpp:73-92 | a node scan with its filters covers its subgraph and, without a cycle, means it |
| JoinOrder.RelScanEntry | src/planner/join_order_enumerator.cpp:108-128 | so does a relationship scan in either direction |
| JoinOrder.IndexJoinEntry | src/planner/join_order_enumerator.cpp:225-243 | so does an index-nested-loop join with the newly matched filters |
| JoinOrder.HashJoinEntry | src/planner/join_order_enumerator.cpp:245-276 | so does a hash join with the newly matched filters |
| Subgraphs.NbrsMeet | src/binder/query/reading_clause/query_graph.cpp:74-87 | neighbour subgraphs have the asked size, no variable in common and a connecting node |
| JoinNodes.OneJoinNodeHolds | src/planner/join_order_enumerator.cpp:157-158 | planned neighbours have exactly one join node if the graph has no cycle of two or more relationships |
| JoinNodes.NodesOfPlan | src/planner/join_order_enumerator.cpp:215-257 | a plan has at most one node more than relationships between different nodes |
| JoinNodes.Spanning | src/binder/query/reading_clause/query_graph.cpp:74-87 | leaving out the relationships that close a cycle, the nodes can still be matched one by one |
| JoinNodes.AssertedIsAcyclic | src/planner/join_order_enumerator.cpp:157-158 | if the assertion holds at every level, there is no cycle of two or more relationships |
| JoinNodes.PassedOverCycle | src/planner/join_order_enumerator.cpp:157-158 | the graphs that pass the assertion without being acyclic are those with a relationship from a node to itself |
| JoinOrder.NewIsFilterable | src/planner/join_order_enumerator.cpp:447-473 | newly matched conjuncts have their columns and were not applied before |
| JoinOrder.ParallelIsPlanned | src/planner/join_order_enumerator.cpp:145-170 | the enumerator has plans for the graph of two parallel relationships, and it is not acyclic, so all of them are wrong |
| JoinOrder.CheapestPlans | src/planner/subplans_table.cpp:46-57 | the kept plans are the cheapest, in order of cost |
| JoinOrder.JoinOrderEnumerator.AddPlan | src/planner/subplans_table.cpp:37-44 | appends one plan under its subgraph; what every stored plan satisfies still holds |
| JoinOrder.JoinOrderEnumerator.PlanNodeScan | src/planner/join_order_enumerator.cpp:73-92 | every node gets a plan, and what every stored plan satisfies still holds |
| JoinOrder.JoinOrderEnumerator.PlanRelScan | src/planner/join_order_enumerator.cpp:108-128 | every relationship gets plans in both directions |
| JoinOrder.JoinOrderEnumerator.PlanInnerINLJoin | src/planner/join_order_enumerator.cpp:225-243 | the union gets at least one plan that covers it |
| JoinOrder.JoinOrderEnumerator.PlanInnerHashJoin | src/planner/join_order_enumerator.cpp:245-276 | likewise, in either build/probe order |
| JoinOrder.JoinOrderEnumerator.JoinNeighbour | src/planner/join_order_enumerator.cpp:157-168 | two neighbours are joined by index or hash join, whichever applies, the union gets a plan, and the assertion fails exactly when there is not one join node |
| JoinOrder.JoinOrderEnumerator.PlanInnerJoin | src/planner/join_order_enumerator.cpp:145-170 | every pair of planned neighbours of the two levels is joined, and no assertion failed only if each of them has one join node |
| JoinOrder.JoinOrderEnumerator.FinalizeLevel | src/planner/subplans_table.cpp:46-57 | no subgraph of the level keeps more than 100 plans and none loses all |
| JoinOrder.JoinOrderEnumerator.PlanLevel | src/planner/include/join_order_enumerator.h:71-79 | every connected subgraph of the level has a plan, and no assertion failed only if every subgraph of the level below has one join node with each further relationship |
| JoinOrder.JoinOrderEnumerator.PlanAll | src/planner/join_order_enumerator.cpp:31-35 | if the whole graph is connected it has a plan |
| JoinOrder.LevelCovered | src/planner/include/join_order_enumerator.h:71-79 | joining single variables to the level below reaches every connected subgraph |
| JoinOrder.EnumerateJoinOrder | src/planner/join_order_enumerator.cpp:24-37 | for any query graph: a buildable graph gets plans, and the assertion on join nodes never fails if and only if the graph has no cycle of two or more relationships; every plan denotes join-then-filter if and only if the graph has no cycle at all |
| JoinOrder.StoredPlanExact | src/planner/join_order_enumerator.cpp:215-276 | every plan in the table, for any subgraph and WHERE, denotes the join of the subgraph and the conjuncts due on it if and only if the subgraph has no cycle |
| JoinOrder.PushDownPreservesMeaning | src/planner/join_order_enumerator.cpp:24-37 | each conjunct of WHERE is in exactly one filter, and the plan produces, on every database, exactly the join rows on which WHERE is true if and only if the graph has no cycle |
| JoinOrder.EachRowOnce | src/planner/join_order_enumerator.cpp:24-37 | without a cycle it produces each of them exactly once |
| Connectivity.ValidateQueryGraphIsConnected | src/binder/binder.cpp:644-677 | the breadth-first search accepts a graph if and only if every node can be reached from the first |
| Connectivity.VisitNext | src/binder/binder.cpp:659-668 | one round visits the neighbours of the frontier and nothing that cannot be reached |
| Connectivity.NewNeighbours | src/binder/query/reading_clause/query_graph.cpp:188-203 | finds the neighbours of a node that were not visited |
| Connectivity.SeparatedIsNotBuilt | src/planner/join_order_enumerator.cpp:145-170 | a graph that a closed set of nodes separates cannot be built |
| Connectivity.ConnectedIsBuildable | src/binder/binder.cpp:644-677 | the binder's check accepts exactly the graphs that the enumerator has plans for |
| JoinOrder.UnmentionedConjunctIsLost | src/planner/join_order_enumerator.cpp:452-453 | the filters of a returned plan are exactly the conjuncts that mention a variable of the graph |
| TaskTrees.PostOrderDependencies | src/common/task_system/task_scheduler.cpp:59-77 | in the order of the recursion every task comes after all tasks below it |
| TaskTrees.PushPending | src/common/task_system/task_scheduler.cpp:62-64 | calling into a dependency leaves the remaining order unchanged |
| TaskScheduling.TaskInvKept | src/common/task_system/task.cpp:8-23 | registered, finished and active threads stay in balance, and completion without exception means finalized |
| TaskScheduling.SuccessIsFinal | src/common/task_system/task.cpp:8-23 | a task that succeeded stays so |
| TaskScheduling.CompletedWithoutException | src/common/task_system/task_scheduler.cpp:66-74 | found completed and then without exception means succeeded |
| TaskScheduling.StepInv | src/common/task_system/task_scheduler.cpp:59-149 | every step of every worker and client keeps the invariant |
| TaskScheduling.RunsAfterDependencies | src/common/task_system/task_scheduler.cpp:59-108 | in every interleaving a thread works on a task only after all tasks below it succeeded |
| TaskScheduling.FinalizeOnce | src/common/task_system/task.cpp:17-23 | finalizeIfNecessary runs at most once, and only when all registered threads have finished |
| TaskScheduling.ReturnMeansFinalized | src/common/task_system/task_scheduler.cpp:59-77 | a normal return means the task and all below it were finalized exactly once |
| TaskScheduling.FailureExact | src/common/task_system/task_scheduler.cpp:127-149 | in every reachable state, finalize threw and no exception is stored if and only if its worker is between the throw and setException; there is one deregistration too many if and only if that worker is through |
| TaskScheduling.SuccessExact | src/common/task_system/task_scheduler.cpp:66-74 | completed without exception is success, save for a finalize that threw, outside that window |
| TaskScheduling.SuccessWithoutFinalizeFailure | src/common/task_system/task_scheduler.cpp:137-148 | if finalize never throws, success is completion without exception |
| TaskScheduling.NormalReturnExact | src/common/task_system/task_scheduler.cpp:66-77 | a client's test returns normally if and only if the task succeeded and, if its finalize threw, the test is taken in that window |
| TaskScheduling.PastFailure | src/common/task_system/task_scheduler.cpp:59-77 | a client that is past a task whose finalize threw tested it in that window |
| TaskScheduling.SecondDeregistration | src/common/task_system/task_scheduler.cpp:142-147 | the finalizing worker's second deregistration leaves the finished count one above the registered one |
| TaskScheduling.SecondDeregistrationHides | src/common/task_system/task_scheduler.cpp:142-147 | once the worker of a finalize that threw is through, the task never counts as completed again, and a client waiting for it waits forever |
| TaskScheduling.ReturnsAlthoughFinalizeThrew | src/common/task_system/task_scheduler.cpp:137-148 | a run in which a client returns normally although finalize threw |
| Calendar.YearStartClosed | src/common/types/date_t.cpp:316-318 | days before a year, counted year by year, in closed form |
| Calendar.Repeats | src/common/types/date_t.cpp:132-142 | the calendar repeats every 400 years, after 146097 days |
| Calendar.TableCorrect | src/common/types/date_t.cpp:97-128 | every entry of the year table is the number of days counted |
| Calendar.MonthTableCorrect | src/common/types/date_t.cpp:71-96 | every entry of the two month tables, as the source has them, is the month whose counted days hold that day |
| Calendar.DayNumberMonotone | src/common/types/date_t.cpp:178-197 | later dates have larger day numbers |
| Calendar.DayNumberInjective | src/common/types/date_t.cpp:178-197 | a day number has only one date |
| Calendar.ShiftDays | src/common/types/date_t.cpp:130-142 | moves any 32-bit day into the table's 400 years by whole periods |
| Calendar.LookUp | src/common/types/date_t.cpp:97-128 | an entry of the year table is the day its year starts |
| Calendar.ShiftYear | src/common/types/date_t.cpp:184-191 | moves any valid year into the table by whole periods |
| Calendar.SearchYear | src/common/types/date_t.cpp:143-154 | the interpolation search stays in the table, ends, and finds the year of the day |
| Calendar.ExtractYearOffset | src/common/types/date_t.cpp:130-154 | year and table offset of any 32-bit day |
| Calendar.MonthAndDay | src/common/types/date_t.cpp:161-175 | month and day of a day of the year |
| Calendar.Convert | src/common/types/date_t.cpp:156-176 | every 32-bit day gets a calendar date with that day number |
| Calendar.CheckValid | src/common/types/date_t.cpp:320-331 | accepts exactly the dates of the calendar in the year range |
| Calendar.MonthDays | src/common/types/date_t.cpp:333-336 | the length of the month |
| Calendar.FromDate | src/common/types/date_t.cpp:178-197 | throws exactly on invalid dates and else gives the counted day number |
| Calendar.ValidRange | src/common/types/date_t.cpp:320-331 | a date is in range exactly when its day number is between the two limits |
| Calendar.DateRoundTrip | src/common/types/date_t.cpp:156-197 | Convert(FromDate(c)) is c for every valid date |
| Calendar.DayRoundTrip | src/common/types/date_t.cpp:156-197 | FromDate(Convert(n)) is n exactly for days in range, else it throws |
| Calendar.MonthsAwayExact | src/common/types/date_t.cpp:15-32 | adding m months moves 12*year+month by exactly m and clamps the day to the month |
| Calendar.AddMonths | src/common/types/date_t.cpp:15-32 | the truncating division and the carry compute that for every sign |
| Calendar.AddInterval | src/common/types/date_t.cpp:13-43 | a date plus an interval, with the 32-bit wrap of the source |
| Timestamps.GetDateIsFloor | src/common/types/timestamp_t.cpp:164-167 | the date is floor division, for every sign |
| Timestamps.GetTimeIsRemainder | src/common/types/timestamp_t.cpp:169-172 | the time is the remainder, in [0, one day) |
| Timestamps.IsTimeOfDay | src/common/types/dtime_t.cpp:113-143 | exactly the times of one day are valid |
| Timestamps.FromDatetime | src/common/types/timestamp_t.cpp:174-184 | throws exactly out of range, else the 64-bit value |
| Timestamps.DatetimeExact | src/common/types/timestamp_t.cpp:174-184 | that value is exact exactly below 2^63 |
| Timestamps.LastDayWraps | src/common/types/timestamp_t.cpp:182-182 | the last valid day gives a negative timestamp |
| Timestamps.WrapStaysOut | src/common/types/timestamp_t.cpp:8-26 | a day count that overflows 32 bits wraps to a day out of range |
| Timestamps.Carry | src/common/types/timestamp_t.cpp:15-25 | one carry is enough for every mix of signs |
| Timestamps.Add | src/common/types/timestamp_t.cpp:8-26 | the sum is exactly days*MICROS_PER_DAY+micros after the month shift, or throws exactly when out of range |
| Timestamps.SubtractThenAdd | src/common/types/timestamp_t.cpp:36-47 | b + (a - b) is a if and only if a is not before the first valid day and the difference fits in 64 bits |
| Timestamps.AddDifference | src/common/types/timestamp_t.cpp:8-47 | so does the sum the code computes |
| NullMasks.WithNullAt | src/common/null_mask.cpp:7-16 | setting one null bit sets that bit and no other |
| NullMasks.NullMask.SetNull | src/common/null_mask.cpp:7-16 | and keeps the no-nulls guarantee sound |
| NullMasks.NullMask.SetAllNull | src/common/include/null_mask.h:87-90 | every position is null |
| NullMasks.NullMask.SetAllNonNull | src/common/include/null_mask.h:83-86 | no position is null |
| NullMasks.DisjointMasks | src/common/include/null_mask.h:11-37 | the single-bit masks are pairwise disjoint |
| NullMasks.NonZero | src/common/include/null_mask.h:11-20 | and none is zero |
| Vectors.ExecuteBothFlat | src/function/include/binary_operation_executor.h:53-65 | the current row gets the pointwise result |
| Vectors.ExecuteRow | src/function/include/binary_operation_executor.h:45-51 | one row gets its null bit and value and no other row changes |
| Vectors.ExecuteLoop | src/function/include/binary_operation_executor.h:74-105 | filtered or not, checked or not, the loop gives every selected row its result |
| Vectors.ExecuteFlatUnFlat | src/function/include/binary_operation_executor.h:67-107 | every selected row gets the pointwise result with the left operand fixed |
| Vectors.ExecuteUnFlatFlat | src/function/include/binary_operation_executor.h:109-149 | every selected row gets the pointwise result with the right operand fixed |
| Vectors.ExecuteBothUnFlat | src/function/include/binary_operation_executor.h:151-189 | every selected row gets the pointwise result |
| Vectors.Execute | src/function/include/binary_operation_executor.h:191-210 | in all paths a row is null when an operand is and else op(left, right), except for nulls already in the mask of an unchecked path |
| Vectors.StaleNull | src/function/include/binary_operation_executor.h:69-110 | two batches into one result: after one with a null flat operand, one without any null still answers null |
| Vectors.Select | src/function/include/binary_operation_executor.h:231-396 | keeps exactly the rows on which execute gives a non-null true, in order, also in place |
| Vectors.NullKeepsSelection | src/function/include/binary_operation_executor.h:256-297 | a null flat operand: no row qualifies, yet all stay selected |
| Vectors.SelectOnValue | src/function/include/binary_operation_executor.h:231-240 | writes the position and moves on only on true |
| Vectors.SelectLoop | src/function/include/binary_operation_executor.h:263-293 | the loop compacts the qualifying positions, also into the array it reads |
| Vectors.KeptExact | src/common/vector/value_vector.cpp:40-55 | a filtered selection holds exactly the qualifying positions, each as often as before |
| Vectors.KeptSorted | src/common/vector/value_vector.cpp:40-55 | and an increasing selection stays so |
| Vectors.Compact | src/common/vector/value_vector.cpp:41-53 | compaction of a buffer onto itself is that filter |
| Vectors.DiscardNull | src/common/vector/value_vector.cpp:33-58 | the selection becomes its non-null positions |
| Vectors.SelectTrue | src/expression_evaluator/reference_evaluator.cpp:17-39 | the selection becomes its non-null true positions |
| SerDeser.LittleEndianRoundTrip | src/common/include/ser_deser.h:17-27 | an integer is read back from its bytes |
| SerDeser.SerializeInt | src/common/include/ser_deser.h:17-21 | writes an integer and leaves the bytes before alone |
| SerDeser.DeserializeInt | src/common/include/ser_deser.h:23-27 | reads back the integer the bytes hold |
| SerDeser.SerializeString | src/catalog/catalog.cpp:17-25 | writes length and bytes and leaves the bytes before alone |
| SerDeser.DeserializeString | src/catalog/catalog.cpp:27-34 | reads back the string and ends where it ends |
| SerDeser.SerializeSet | src/common/include/ser_deser.h:77-86 | writes the elements in some order, each once |
| SerDeser.DeserializeSet | src/common/include/ser_deser.h:88-99 | reads back the set from any order |
| CatalogCodec.SerializeType | src/catalog/catalog.cpp:36-45 | writes a type with its child types |
| CatalogCodec.DeserializeType | src/catalog/catalog.cpp:47-58 | reads back any type with a child exactly for LIST |
| CatalogCodec.SerializeProperty | src/catalog/catalog.cpp:60-68 | writes the five parts of a property one after the other |
| CatalogCodec.DeserializeProperty | src/catalog/catalog.cpp:70-79 | reads back the property |
| CatalogCodec.SerializeProperties | src/common/include/ser_deser.h:41-49 | writes the count and the properties in order |
| CatalogCodec.DeserializeProperties | src/common/include/ser_deser.h:66-75 | reads back the vector |
| CatalogCodec.SerializeNode | src/catalog/catalog.cpp:130-140 | writes a node table schema |
| CatalogCodec.DeserializeNode | src/catalog/catalog.cpp:142-153 | reads back the schema with an empty cache |
| CatalogCodec.SerializeRel | src/catalog/catalog.cpp:155-166 | writes a relationship table schema |
| CatalogCodec.DeserializeRel | src/catalog/catalog.cpp:168-179 | reads back the schema apart from numGeneratedProperties |
| CatalogFile.SaveNodes | src/catalog/catalog.cpp:325-329 | the node tables lie one after the other, each once |
| CatalogFile.SaveRels | src/catalog/catalog.cpp:330-334 | so do the relationship tables |
| CatalogFile.TableSaved | src/catalog/catalog.cpp:325-334 | a table written behind the others leaves them in place |
| CatalogFile.SaveToFile | src/catalog/catalog.cpp:319-336 | the file holds the catalog, its maps in whatever order they were iterated, over any earlier contents |
| CatalogFile.UnstrCache | src/catalog/catalog.cpp:362-368 | the cache of unstructured properties is rebuilt |
| CatalogFile.NodeCache | src/catalog/catalog.cpp:360-361 | the map from node table names to IDs is rebuilt |
| CatalogFile.RelCache | src/catalog/catalog.cpp:370-372 | so is the one for relationship tables |
| CatalogFile.ReadFromFile | src/catalog/catalog.cpp:338-374 | gives back the catalog with its caches and consumes exactly its bytes |
| CatalogFile.CatalogRoundTrip | src/catalog/catalog.cpp:319-374 | save then read is the identity up to numGeneratedProperties, reading exactly what was written |
| Allocator.MemoryManager.AllocateBlock | src/storage/buffer_manager/memory_manager.cpp:8-26 | hands out a page that was not out, pinned once; a throwing pin loses exactly one page |
| Allocator.MemoryManager.FreeBlock | src/storage/buffer_manager/memory_manager.cpp:28-32 | takes the page back; free, outstanding and lost pages stay a partition |
| Allocator.SpanAdded | src/common/overflow_buffer.cpp:6-14 | bytes taken at the end of a block overlap nothing handed out before |
| Allocator.BuffersApart | src/common/include/overflow_buffer.h:84-88 | spans of different buffers lie in different pages |
| Allocator.SpansMerged | src/common/include/overflow_buffer.h:43-51 | merging keeps all spans inside owned blocks and disjoint |
| Allocator.StatesMerged | src/common/include/overflow_buffer.h:43-51 | merging joins blocks and live spans, continues in the other's current block, and stays sound |
| Allocator.MatchIsSeparate | src/common/include/overflow_buffer.h:26-80 | live spans never overlap, and those of different buffers lie in different pages |
| Allocator.AllocatedWasFree | src/common/overflow_buffer.cpp:6-14 | a span handed out overlapped no live span of any buffer |
| Allocator.NoBlockLeft | src/common/include/overflow_buffer.h:35-39 | a destroyed buffer owns no block |
| Allocator.OverflowBuffer.AllocateSpace | src/common/overflow_buffer.cpp:6-14 | fails exactly for an oversized request or without a frame; else a new span disjoint from all live ones |
| Allocator.OverflowBuffer.AllocateNewBlock | src/common/overflow_buffer.cpp:16-21 | appends an empty block and makes it current |
| Allocator.OverflowBuffer.ResetBuffer | src/common/include/overflow_buffer.h:56-69 | keeps the first block, empty, and frees exactly the others |
| Allocator.OverflowBuffer.Merge | src/common/include/overflow_buffer.h:43-51 | takes over the other's blocks and spans |
| Allocator.OverflowBuffer.Destroy | src/common/include/overflow_buffer.h:35-39 | frees exactly the buffer's blocks |
| Allocator.Run | src/common/include/overflow_buffer.h:26-88 | whole runs: an allocation succeeds if and only if it fits in a block and in the current one or a frame is found, its span was free, and each buffer's live spans are exactly those answered since its last reset, merged ones included |
| CsvBlocks.CSVReader.HasNextLine | src/common/csv_reader/csv_reader.cpp:49-80 | finds the next line that is not skipped, unless the cursor is past the block |
| CsvBlocks.CSVReader.GetLine | src/common/csv_reader/csv_reader.cpp:65-65 | reads up to and including the next newline |
| CsvBlocks.ReadBlock | src/common/csv_reader/csv_reader.cpp:10-26 | a block whose constructor returns reads exactly the specified lines with their texts |
| CsvBlocks.SeekLine | src/common/csv_reader/csv_reader.cpp:14-26 | the constructor goes to the first line that starts in the block, wherever its search ends |
| CsvBlocks.TerminatedFindsLine | src/common/csv_reader/csv_reader.cpp:23-25 | it ends for every block of a file that ends in a newline |
| CsvBlocks.LastLineLost | src/common/csv_reader/csv_reader.cpp:64-80 | a last line without a newline is read by no block |
| CsvBlocks.LinesExact | src/common/csv_reader/csv_reader.cpp:49-80 | those are the starts of lines in the block that are not skipped |
| CsvBlocks.BlockReads | src/common/csv_reader/csv_reader.cpp:59-72 | a block reads its lines, and one more exactly when it ends in a skipped line that another follows |
| CsvBlocks.BlockPartition | src/common/csv_reader/csv_reader.cpp:10-80 | the blocks in order give the file's lines exactly when no block overruns |
| CsvBlocks.EveryLineOnce | src/common/csv_reader/csv_reader.cpp:10-80 | without comments and short lines every line is read by exactly the block of its first byte |
| CsvBlocks.CommentReadsTwice | src/common/csv_reader/csv_reader.cpp:66-72 | a comment of one block, then a line: that line is read twice |

## Left out

- CrashRecovery.Flush: the flush of the WAL and the clearing of the WAL are single steps; only `WalReplay.TornFlushExact`
  looks inside a flush, and the chain of WAL header pages is not modelled.
- WalReplay.ReplayIdempotent: the exact condition is for logs whose records expand alike before and after the catalog and
  the statistics are overwritten; for those that do not, `WalStatements` has the exact conditions for COPY, DROP and
  REL_TABLE with one such file.
- VersionedFile.VersionedFileHandle.AddNewPageToFileHandle: list files, which add pages without an insertion record, are not
  modelled.
- CrashRecovery.StepInv: as said for the flush, a crash does not cut the flush or the clearing of the WAL in two.
- ConcurrentPool.StepInv: removing and flushing pages are not steps of the concurrent pool, because eviction does not recheck
  for a frame they emptied; `BufferPool` has them.
- PageStore.Run: pin counts do not wrap at 32 bits, and the clock hand does not wrap.
- JoinOrder.EnumerateJoinOrder: covers a first MATCH; second MATCH clauses, OPTIONAL MATCH, subqueries, the accumulate
  optimizer, property scans and flattening are not modelled, and cost is an arbitrary function.
- JoinOrder.JoinOrderEnumerator.JoinNeighbour: where the assertion fails and is compiled out, any of the join nodes may be
  taken, where the source takes the first in its order of positions.
- Transactions.TransactionSafety: liveness and deadlock freedom are not claimed; the two mutexes are taken in opposite orders.
- TaskScheduling.StepInv: `waitAllTasksToCompleteOrError` and stopping the workers are not modelled.
- CsvBlocks.ReadBlock: requires that the block's constructor returns (`FindsLine`); splitting lines into tokens is not
  modelled.
- CatalogFile.ReadFromFile: is specified for files a catalog was saved to; what a damaged file yields is not.
- Vectors.Execute: string and list operations that write to an overflow buffer are not modelled, nor unary and ternary ones.
- Allocator.OverflowBuffer.Merge: `currentBlock` is a position in the block list, so the pointer a merged-from buffer keeps
  into the other's block is not modelled.
- In-memory disk arrays, the hash index, parsing and printing of dates, aggregates, the parser, shell and bindings.

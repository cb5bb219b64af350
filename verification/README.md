# TiDB: schema changes, aggregation and key ranges

A model of parts of TiDB in Dafny, with proofs about all inputs and all runs.

- `IndexBackfill.dfy` (module `Backfill`): the backfill of a new index, from one batch to the
  whole table.
- `OnlineIndexProtocol.dfy` (module `OnlineIndex`): the life of an index as a state machine. The
  owner walks it through the schema states, servers one version apart go on writing rows, and the
  transactions of the backfill commit in any order, fail, crash and resume.
- `ReorgResults.dfy`: what the worker of a server keeps of a backfill, its result and its handle, over
  changes of the owner.
- `SchemaValidator.dfy`: the check at commit that no table of a transaction has changed, made on a
  bounded and merged queue of changes; compared with the full log.
- `JobQueue.dfy`: the two job queues, and the dependencies between them.
- `Columns.dfy`, `ColumnJobs.dfy`: the column list and the offsets that indexes keep into it, and
  the add and drop column jobs with failures, cancels and rollbacks.
- `KeyFlags.dfy`: the key flags of columns through add, drop and rename index jobs.
- `JobHandlers.dfy`: the handlers of column, index and lock jobs, branch by branch, as functions of
  what they find in the store. `HandlerAgreement.dfy` ties them to the machines on
  tables and indexes.
- `JobLifecycle.dfy`: one job from the queue to the history, and what the waiting client reads there.
- `StreamAggregation.dfy`: the split of sorted chunks into groups, and the executor on top of it.
- `HashAggregation.dfy`: partial and final workers and the whole pipeline of them, compared with the
  sequential executor.
- `TableLocks.dfy`: LOCK TABLES and UNLOCK TABLES jobs.
- `SlowQueries.dfy`: the heap of the slowest queries and the queue of recent ones.
- `HandleRanges.dfy`: encoded integers, the next key after a prefix, and the ranges for a list of
  handles, at the level of bytes.
- `Options.dfy`, `SchemaStates.dfy`, `Sequences.dfy`: what several of these share.

State machines are written as functions on states, and their results are lemmas about every legal
sequence of events. Code that updates something step by step is a method with its loops, or a class
whose methods are proved against those functions.

## Promises that do not hold

In these cases the model does what the code does; one lemma shows an input that fails, another says
exactly when the promise holds.

- A unique index can be published without the entry of a row. Deleting a row removes the entry under
  its key without looking whose entry it is (`UniqueIndexCanLoseEntry`; exactly when, for one write:
  `WriteKeepsInv`, for whole runs: `RunIsInvariant`). No entry is wrong even then (`NoDanglingAlways`).
- An add index job that turns back is stored as a rollback even if the table cannot be written. An
  index in reorganization is then in a state from which no drop goes on, and stays for ever
  (`RollbackCanStick`, `RemovableExactly`). A cancelled drop in the same case ends and leaves the index
  write only, from where a new drop removes it (`CancelCanHide`, `PublicExactly`).
- A region border inside a record puts its handle into two ranges (`RowScannedTwice`,
  `TasksCoverOnce`, `ChainScans`), and rounds that always stop inside the record they start with never
  end (`OneWorkerNeverEnds`, `RoundsEnd`).
- A worker that loses the ownership keeps its backfill, and takes the result or the handle of it for
  that of the next add index job when it becomes the owner again (`ResultOutlivesOwner`,
  `StaleGainIsNotSafe`, `BackfillOutlivesOwner`, `StaleHandleSkipsRows`; exactly when: `RunIsSafe`).
- The validator drops a load that comes while it is stopped, and then passes transactions after a
  restart (`RestartCanMiss`, `SoundUnlessMissed`).
- Index offsets of a moved column are not updated (`ReorderBreaks`, `ReorderKeeps`). The drop column job refuses such
  columns, so `DropColumnJob` holds without the condition.
- A cancelled add column job whose next run fails leaves its column behind: if the run fails before
  it decodes the arguments, the job later looks for a column by the wrong arguments; if it fails on
  writing, a column in reorganization is in a state from which no drop goes on
  (`AddColumnCanBeLost`, `AddRun`).
- With two primary keys on one column, removing one clears the flag of the other. A rename of the
  primary key makes room for a second one (`RenamedKeyLosesFlag`), and a handle key does not refuse
  one (`HandleLosesFlag`); the exact condition is in `RemoveExact` and `RunKeepsFlags`.
- Keys at chunk borders are compared without their null flags (`NullMergesWithZero`,
  `ChunkingIsIrrelevant`).
- A stream aggregation that is closed before its end cannot be opened again (`CloseEarly`, `Close`).
- A lock job cancelled over a pre-locked table leaves the pre-lock, and the next job takes it for its
  own (`LeftoverIsTakenForOwn`, `CancelKeeps`).
- A slow query that was left out does not come back when others expire (`ForgottenQuery`,
  `ExpiryForgets`).
- The range up to the next key is not the range of the prefix: if the last byte is 255 a shorter key
  can lie in it (`ShorterKeyBetween`), and if all are, or the prefix is empty, keys with the prefix
  lie behind it (`OnesLoseKeys`). The exact condition is `NextIsPrefixEnd`.

## What is taken for granted

- A transaction is one step. Two writes of one row, and a write and a backfill batch on one key, do
  not commit over each other.
- The owner moves on when all live servers have the newest schema version; a server that is down has
  left and reads the newest version when it comes back.
- Region borders may lie anywhere, inside records too, but in order and between the ends of the range
  asked for, and no shorter than a record key; on a shorter one the code gives up with an error
  (ddl/index.go:1140-1151). Batch size and number of workers are at least one, as the bounds of the system variables say.
  `AddPhysicalTableIndex` is proved for runs that end; `RoundsEnd` says which do.
- `OnlineIndex` has one job, and every owner starts its backfill afresh; what a worker does with the
  backfill of an earlier job is in `ReorgResults`.
- In `ReorgResults` a job whose own backfill has started is rolled back only after its result has been
  read, because the cancel goes through the same call (ddl/rollingback.go:175-188).
- Which jobs depend on each other is an arbitrary symmetric relation, not the rule on schema and
  table IDs.
- A table on which a column job starts has offsets that number its columns, different names, index
  columns that lead to their columns, and only public columns.
- What a handler finds in the store (`Facts`) is arbitrary at every run, so `JobLifecycle` covers
  stores that no run of these jobs could leave behind.
- A partial result of stream aggregation is the list of rows fed to it. Parallel hash aggregation is
  proved for aggregate functions whose merge does not look at the order of partial results of one group.
- The order that `sort.Sort` gives to queries of equal duration is some order.

## Model

| member | source | states |
|---|---|---|
| `Backfill.IterateSnapshotRows` | ddl/index.go:1464-1520 | The iteration of one batch visits exactly the rows of its range, in handle order, and stops where the range or the batch ends; no handle arithmetic runs over the greatest handle |
| `Backfill.FetchRowColVals` | ddl/index.go:823-867 | One batch takes the next rows of its range, each once, as many as the batch size allows; it is reported done if and only if it took none or its last row is the end of the range, and then no row is left; otherwise the reported handle is behind the rows taken and before all others |
| `Backfill.SameKey` | table/tables/index.go:162-189 | Two rows have one index key if and only if the index is unique, both hold the same values, and none of these is NULL |
| `Backfill.BatchCheckUniqueKey` | ddl/index.go:888-942 | The check of a batch fails if and only if some row of it meets a distinct key that another row holds, in the index or in the batch itself; the rows to skip are those whose key is there |
| `Backfill.FirstConflict` | ddl/index.go:888-942 | Said by values: before the first entry that check fails if and only if the index is unique and two rows of the batch hold equal values without a NULL |
| `Backfill.BackfillIndexInTxn` | ddl/index.go:948-1006 | A batch transaction adds an entry for each of its rows and nothing else, or changes nothing and reports a duplicate that is really there |
| `Backfill.HandleBackfillTask` | ddl/index.go:1011-1054 | A worker that succeeds has scanned every row of its range exactly once, in order, and each has its entry; one that fails has done so for the rows below the handle it reports, and stops before the batch in which the duplicate is, or before the first batch that is found not runnable; every batch before it was |
| `Backfill.WaitTaskResults` | ddl/index.go:1159-1187 | Only the unbroken run of successes at the front moves the resume point, and the first error after it is the one reported |
| `Backfill.HandleReorgTasks` | ddl/index.go:1191-1222 | One round of workers, on ranges that may share a record: the handle reported is the end of the last range in the unbroken run of successes at the front, or the start of the round; whatever fails, and also if the job is found not runnable after the round, the rows below it have their entries; without a failure the workers scanned what their ranges hold and every row has its entry; a duplicate is reported only if there is one up to the first range that failed, and a job not runnable only if a check of that range or the one after the round says so |
| `Backfill.TasksCoverOnce` | ddl/index.go:1116-1151 | No handle is left out when regions are made into worker ranges; a handle is in two of them if and only if a region border lies inside its record |
| `Backfill.RowScannedTwice` | ddl/index.go:1230-1247 | A border inside the first record of a table: both ranges hold it and both workers scan it |
| `Backfill.ChainScans` | ddl/index.go:1225-1266 | For every chain of ranges, each beginning where the last one stops or in the record where it stops: exactly the rows of the whole range are scanned, and each once and in order if and only if no two neighbouring ranges meet in a row |
| `Backfill.SentChained` | ddl/index.go:1300-1381 | Whatever the regions and the number of workers of each round, the ranges of all rounds are one such chain from the start of the table to where the next round starts |
| `Backfill.SentExact` | ddl/index.go:1116-1138 | If all borders are record keys no two ranges overlap |
| `Backfill.RoundsEnd` | ddl/index.go:1319-1381 | Rounds without a failure come to an end if and only if there is no round from which on the border after the ranges sent lies, in every round, inside the very record that the round starts with |
| `Backfill.ExactEnds` | ddl/index.go:1319-1381 | With all borders on record keys they end, for any number of workers |
| `Backfill.OneWorkerNeverEnds` | ddl/index.go:1319-1381 | One worker and a border inside the first record: they never end |
| `Backfill.SendRangeTasks` | ddl/index.go:1225-1266 | One round on top of those before it, for any region borders: without a failure the ranges sent so far have been scanned and all their rows have entries, and the remaining range starts where the next round must; with one, the rows below the reported handle have theirs |
| `Backfill.AddPhysicalTableIndex` | ddl/index.go:1300-1381 | The whole backfill, for any region borders and any number of workers, provided that the rounds end or the job is found not runnable after one of them: on success the ranges sent are a chain over the whole table, all rows have their entries, and the rows scanned are all rows once and in order if and only if no two ranges meet in a row; a duplicate-key error is reported only for a conflict that exists, and success only without one; on any error the rows below the resume point have their entries, and that point is where, in the last round, the unbroken run of successes ends |
| `Backfill.ConflictIsDuplicate` | table/tables/index.go:162-194 | Over entries that belong to their rows, some rows conflict if and only if one of them has a duplicate, with equal values and no NULL, that is among them or has its entry already |
| `OnlineIndex.NoDanglingAlways` | ddl/index.go:339-560 | For every index, unique or not, and every run, with any interleaving of row writes, schema reloads, owner steps, failed writes of the owner, backfill batches, failures, crashes, resumes and cancels: until the index is removed no entry of it leads to a missing or changed row |
| `OnlineIndex.PlainIndexSafe` | ddl/index.go:339-560 | In every state of every such run an index that is not unique has no such entry, and is complete whenever some server reads through it |
| `OnlineIndex.UniqueIndexSafe` | ddl/index.go:506-560 | For a unique index, too, no entry is ever wrong; and in every run in which no write removes the entry of another row that must have one, it is complete whenever some server reads through it |
| `OnlineIndex.RunIsInvariant` | table/tables/index.go:273-281 | Over whole runs, from every state with the index invariant: the invariant holds in every state of the run if and only if no write of it removes the entry of another row that must have one |
| `OnlineIndex.PlainNoTheft` | table/tables/index.go:162-194 | No run of an index that is not unique has such a write |
| `OnlineIndex.WriteByState` | table/tables/tables.go:172-192 | What a write of a server does to the entries in each schema state: nothing, only a removal, or also the entry of its row |
| `OnlineIndex.WriteKeepsInv` | table/tables/tables.go:355-400 | A row write of a server that holds the newest schema state or the one before keeps the index invariant if and only if it does not remove the entry of another row that must have one |
| `OnlineIndex.StealingLosesEntry` | table/tables/index.go:273-281 | After such a write the other row is there and has no entry |
| `OnlineIndex.TheftNeedsDuplicate` | table/tables/index.go:273-281 | Only a unique index can lose an entry in this way, and only while two rows want one key |
| `OnlineIndex.NoDuplicatesNoTheft` | table/tables/tables.go:585-635 | A run over a table that never holds two rows with one key has no such write |
| `OnlineIndex.UniqueIndexCanLoseEntry` | table/tables/tables.go:809-836 | A run that publishes a unique index without the entry of one row: a duplicate that the backfill had not reached was deleted, and the entry with it |
| `OnlineIndex.OwnerKeepsInv` | ddl/rollingback.go:40-73 | Every step of the owner (forward, publish, roll back, drop, cancelled drop, backward, and a rollback or cancel that cannot write the table) keeps the index invariant |
| `OnlineIndex.RemovableUnlessStuck` | ddl/index.go:506-560 | From every state some continuation removes the index, if and only if its job is not a rollback over an index in reorganization |
| `OnlineIndex.RemovableExactly` | ddl/rollingback.go:40-73 | After every run the index can still be removed, if and only if in the run no rollback of an index in reorganization was stored in the job without being written to the table |
| `OnlineIndex.StuckStays` | ddl/index.go:556-558 | From there no event leads on: the index stays in reorganization and the job in its rollback in every continuation |
| `OnlineIndex.RollbackCanStick` | ddl/ddl_worker.go:408-429 | A run that ends so: the index is in reorganization, its rollback cannot write the table, and no continuation removes it |
| `OnlineIndex.PublicExactly` | ddl/rollingback.go:145-173 | In every state of a run an index without a job is public, if and only if every cancel of a drop in the run could write the table |
| `OnlineIndex.CancelCanHide` | ddl/rollingback.go:159-172 | A run whose cancelled drop cannot write the table: the job is over and the index is left write only |
| `OnlineIndex.FillKeepsInv` | ddl/index.go:1191-1266 | Every step of the backfill keeps it, too: batches of concurrent workers in any order, failed workers, the end or abort of a round, timeouts and crashes |
| `OnlineIndex.ResumeIsSafe` | ddl/reorg.go:344-400 | Below the persisted handle every row has its entry, whatever failed since: in every run of an index that is not unique, and for a unique one in every run in which no write removes the entry of another row that must have one |
| `OnlineIndex.RoundNextCovered` | ddl/index.go:1159-1187 | Every handle of a round below the handle that is persisted for it was passed by some worker |
| `OnlineIndex.CompleteMeansUnique` | ddl/index.go:484-500 | A complete unique index leaves no two rows with one key |
| `OnlineIndex.UniqueIsEnforced` | table/tables/index.go:194-266 | Over a complete index without wrong entries an insert or update is refused if and only if the index is unique and another row holds the same values, none of them NULL |
| `OnlineIndex.CanPublish` | ddl/index.go:400-500 | From every state that an add job can be in, whatever failed before, and over every table without duplicates, some continuation publishes the index |
| `ReorgResults.StepKeepsInv` | ddl/reorg.go:111-165 | Every step, of the worker, of its backfill, of another owner, of a rollback and of the election, keeps two promises, that a job told done has been filled and that before the handle saved for the head job all rows have entries, if and only if it is not a run that reads the good result, or saves a handle too far on, of another job |
| `ReorgResults.RunIsSafe` | ddl/reorg.go:111-165 | Over whole runs: both promises hold all along if and only if there is no such run |
| `ReorgResults.FreshGainsAreSafe` | ddl/reorg.go:105-109 | They hold in every run in which the server becomes the owner only with a free channel or one that is still that of the head job |
| `ReorgResults.StaleGainIsNotSafe` | ddl/reorg.go:136-144 | Otherwise, with a good result waiting, the first run tells a job done that nobody has filled |
| `ReorgResults.StaleHandleSkipsRows` | ddl/reorg.go:151-163 | With the old backfill still under way and too far on, its handle is saved for the head job, a later backfill starts there, and the job is told done with rows that have no entries |
| `ReorgResults.ResultOutlivesOwner` | ddl/reorg.go:113-124 | A run that leads to the first: the backfill ends, the ownership is lost before the result is read, and the new owner finishes the job |
| `ReorgResults.BackfillOutlivesOwner` | ddl/reorg.go:113-124 | A run that leads to the second: the ownership is lost while the backfill runs, and the new owner finishes the job |
| `ReorgResults.FailureResumes` | ddl/index.go:1203-1215 | After a failed backfill the job is not told done, and the next backfill starts at the handle that the failed one had come to |
| `ReorgResults.ReorgCtx.RunReorgJob` | ddl/reorg.go:111-165 | One call on the fields of the context is the step of the machine the run results are about; it answers with the outcome of the backfill, good or bad, if and only if that has ended, and otherwise saves the handle it has come to |
| `SchemaValidator.StepFaithful` | domain/schema_validator.go:224-253 | A call keeps the bounded, merged queue equivalent to the full log of changes, for every version the queue still covers, if and only if it does not skip a change because the limit is not positive |
| `SchemaValidator.RunFaithful` | domain/schema_validator.go:122-142 | In every run of loads, stops and restarts with positive limits the queue is in order and equivalent to the full log |
| `SchemaValidator.RunBounded` | domain/schema_validator.go:224-253 | With a constant limit the queue never exceeds it |
| `SchemaValidator.OlderVersionExact` | domain/schema_validator.go:190-222 | For an older version the answer is Fail if the queue does not reach back to it, and otherwise exactly that of the full log |
| `SchemaValidator.LoadKeeps` | domain/schema_validator.go:224-253 | What is left of the queue after a change: it is the last delta, the oldest goes only if the queue is full, the last only if it is not the oldest and the new tables contain its own, and in that case the queue does not grow |
| `SchemaValidator.ReachesBack` | domain/schema_validator.go:224-253 | In every run with limits of at least n the queue reaches back to the last n changes that were taken since it was last emptied, and to all of them if they are fewer |
| `SchemaValidator.RecentVersionExact` | domain/schema_validator.go:159-178 | So for every version from the oldest of these changes on the answer is that of the full log |
| `SchemaValidator.CheckMeans` | domain/schema_validator.go:190-222 | Said by the calls before it: a stopped validator answers Unknown; on the version of the last accepted load, or a newer one, the answer is Succ exactly within the lease of that load and Unknown after it; on an older one it is never Unknown, and Fail if no tables are named |
| `SchemaValidator.NoLeasePasses` | domain/schema_validator.go:197-199 | Without a lease every check of a started validator passes |
| `SchemaValidator.SoundUnlessMissed` | domain/schema_validator.go:190-222 | A started validator passes no transaction whose tables have changed, if and only if no change is newer than the version it knows |
| `SchemaValidator.AcceptedLoadMissesNothing` | domain/domain.go:328-382 | After a load that the validator accepts nothing is missed |
| `SchemaValidator.RestartCanMiss` | domain/domain.go:485-508 | Stop, load, restart, in this order: the load is dropped and a transaction on a changed table passes |
| `SchemaValidator.FindNewerDeltas` | domain/schema_validator.go:180-188 | The changes found are exactly those newer than the given version |
| `SchemaValidator.IsRelatedTablesChanged` | domain/schema_validator.go:159-178 | True if and only if the queue is empty, does not reach back to the version, or holds a newer change of one of the tables |
| `SchemaValidator.Validator.Enqueue` | domain/schema_validator.go:224-253 | The queue after a change is that of the machine the retention and run results are about |
| `SchemaValidator.Validator.Update` | domain/schema_validator.go:122-142 | One update of a started or stopped validator is the step of the machine the run results are about |
| `SchemaValidator.Validator.Stop` | domain/schema_validator.go:95-103 | A stop forgets the version and the queue but not the lease |
| `SchemaValidator.Validator.CheckSchema` | domain/schema_validator.go:190-222 | The answer is that of the machine the run results are about |
| `JobQueue.DependencyIsNewest` | ddl/ddl_worker.go:156-186 | The dependency given to a new job is the newest job of the other queue it depends on, so every such job has at most that ID |
| `JobQueue.StepKeepsInv` | ddl/ddl_worker.go:362-462 | Adding, starting and finishing a job keep the order of both queues and of the history |
| `JobQueue.FinishInOrder` | ddl/ddl_worker.go:337-352 | In every run of both workers jobs that depend on each other finish in the order of their IDs |
| `JobQueue.DependentJobsExclude` | ddl/ddl_worker.go:337-352 | In every run, of two unfinished jobs that depend on each other the later one has not started |
| `JobQueue.NoJobIsLost` | ddl/ddl_worker.go:189-210 | In every run the jobs in the two queues and in the history are exactly those that were added |
| `JobQueue.SmallestHeadRuns` | ddl/ddl_worker.go:337-352 | The head with the smallest ID waits for nothing |
| `JobQueue.QueuesDrain` | ddl/ddl_worker.go:362-462 | No deadlock: from every reachable state some run empties both queues |
| `JobQueue.GetAllDDLJobsInQueue` | structure/list.go:141-158 | A queue is read from its newest job to its oldest |
| `JobQueue.BuildJobDependence` | ddl/ddl_worker.go:156-186 | The loop over the other queue finds the dependency that the run results are about |
| `JobQueue.Meta.AddDDLJob` | ddl/ddl_worker.go:189-210 | Adding a job is the step of the machine the run results are about |
| `JobQueue.Meta.HandleDDLJob` | ddl/ddl_worker.go:362-462 | A worker that looks at the head of its queue waits, starts or finishes it as the machine does |
| `Columns.ReorderKeeps` | ddl/column.go:42-95 | Moving a column keeps every index column on the column of its name if and only if no index covers the moved column, or it stays |
| `Columns.ReorderBreaks` | ddl/column.go:42-95 | Two columns change places, and an index on the first leads to the other |
| `Columns.ReorderAndBack` | ddl/column.go:38-95 | Hiding a column and bringing it back to its place is the identity on columns and indexes under the same condition, and only then |
| `Columns.TableInfo.AdjustColumnInfoInAddColumn` | ddl/column.go:42-67 | The last column goes to the given offset, the columns it passes move up by one, and index offsets follow through the map of changes |
| `Columns.TableInfo.AdjustColumnInfoInDropColumn` | ddl/column.go:71-95 | The column goes to the end, those behind it move down by one, and index offsets follow |
| `Columns.TableInfo.ModifyColumn` | ddl/column.go:403-463 | When the job is cancelled, when it is rolled back and when it is done; in the first two cases the table is unchanged; in the third the column is in the place asked for, right behind the named one, and every index column has followed its column, name and all |
| `Columns.CheckModify` | ddl/column.go:364-430 | The exact conditions of the errors, and that the new place is the one the statement asks for |
| `Columns.ModifyKeeps` | ddl/column.go:431-463 | A modified table is well formed, and every index column leads to the same logical column as before |
| `ColumnJobs.InsertedThenRemoved` | ddl/column.go:97-128 | Removing an inserted column gives back the table, offsets of indexes included |
| `ColumnJobs.AddedIsInserted` | ddl/column.go:206-215 | Appending a column and moving it to its place at the end of the job is the same as inserting it there |
| `ColumnJobs.HiddenIsRemoved` | ddl/column.go:268-272 | Moving a column to the end at the start of the job and cutting it off at its end is the same as removing it |
| `ColumnJobs.AddStep` | ddl/column.go:156-228 | Every run, failure, refused table and cancel of an add column job keeps its promise if and only if it is not a failed run that turns a column in work into a rollback it cannot finish |
| `ColumnJobs.AddRun` | ddl/rollingback.go:104-125 | Over whole runs: the promise holds at the end if and only if no step of the run was such a failure |
| `ColumnJobs.AddColumnJob` | ddl/column.go:156-228 | In every run without a failure that loses the column (`Lossless`, the condition of `AddRun`): while the job is queued the new column is the last and the only one not public; a finished job has inserted it at the end, at the front or right behind the named column, as asked; a job rolled back or stopped has restored the table |
| `ColumnJobs.LostStays` | ddl/column.go:292-316 | A column lost in this way stays in the table in every continuation |
| `ColumnJobs.AddColumnCanBeLost` | ddl/ddl_worker.go:251-261 | Run, cancel, a failed run, run: the job has stopped and the table keeps a column that is not public |
| `ColumnJobs.AddWalks` | ddl/column.go:191-222 | Every run that does not stop the job brings the column exactly one state along none, delete only, write only, reorganization, public |
| `ColumnJobs.RollbackWalks` | ddl/column.go:252-285 | Every run of a rollback brings it one state along write only, delete only, delete reorganization, absent |
| `ColumnJobs.DropWalks` | ddl/column.go:237-285 | Every run of a drop job that does not stop it brings the column one state along public, write only, delete only, delete reorganization, absent |
| `ColumnJobs.DropColumnJob` | ddl/column.go:230-290 | In every run of a drop column job the column is public in its place, or the last and the only one not public; a finished job has removed it and nothing else; any other job has changed nothing |
| `KeyFlags.TableInfo.AddIndexColumnFlag` | ddl/index.go:225-239 | Publishing an index adds to each column the flags that the index gives it |
| `KeyFlags.TableInfo.DropIndexColumnFlag` | ddl/index.go:241-265 | Removing an index clears its flags and sets those again that another index starting with the same column gives |
| `KeyFlags.RemoveExact` | ddl/index.go:531-540 | After a removal the flags are those of the remaining indexes if and only if the index is not a primary key that shares a column with another primary key or the handle, and no primary key starting with the same column gives that flag back |
| `KeyFlags.StepKeepsInv` | ddl/index.go:484-540 | Adding, publishing, dropping, cancelling, rolling back and renaming keep the flags a function of the index list, with that one exception |
| `KeyFlags.RunKeepsFlags` | ddl/index.go:484-540 | Along every run of index jobs and renames, whatever primary keys there are, the flags are exact up to the first removal that loses one, and not after it |
| `KeyFlags.FlagsMean` | ddl/index.go:225-239 | What exact flags say: a column is in a published primary key or the handle; it alone makes up a published unique index; some other published index starts with it |
| `KeyFlags.NamedKeyKeepsFlags` | ddl/ddl_api.go:3302-3320 | In every run that renames no primary key and adds none to a table with a handle key, no removal loses a flag; a second primary key is refused by its name alone |
| `KeyFlags.RenamedKeyLosesFlag` | ddl/index.go:284-298 | A run: the primary key is renamed, a second one added over its column and published, the first one dropped; the column loses its flag |
| `KeyFlags.HandleLosesFlag` | ddl/ddl_api.go:3317-3320 | A run: a primary key is added over the handle column and rolled back; the handle column loses its flag |
| `JobHandlers.RunDisciplined` | ddl/ddl_worker.go:509-588 | Whatever the handlers of column, index and lock jobs and of their cancels find in the store: a job that a run turns back or gives up comes with an error, and one that it finishes without |
| `JobHandlers.HandlersDisciplined` | ddl/ddl_worker.go:521-588 | The handlers of add, drop, modify and set default column, add, drop and rename index, lock and unlock tables keep this rule |
| `JobHandlers.CancelsDisciplined` | ddl/rollingback.go:270-316 | So do their cancels |
| `JobHandlers.UnreadableRun` | ddl/table.go:363-386 | A table that cannot be read leaves every job but a lock job as it is, with an error |
| `JobHandlers.HopelessRun` | ddl/table.go:363-386 | A table that is gone, or arguments that cannot be decoded, end the job |
| `JobHandlers.ModifyOutcome` | ddl/column.go:329-494 | For all facts: a modify column job is done, turns back, is given up or waits for nulls to be prevented, each if and only if the column and its nulls say so |
| `JobHandlers.ModifyRollbackOutcome` | ddl/column.go:551-575 | Its rollback is over if and only if the flags need no reset or are written |
| `JobHandlers.OneRunOutcome` | ddl/index.go:284-298 | A set default or rename index job is done or given up in one run; a rename to the old name panics |
| `JobHandlers.LockOutcome` | ddl/table_lock.go:23-99 | For all facts: a lock job is done if and only if its last table is made public and written, given up if and only if a table is missing or refused, and tries again in trouble |
| `JobHandlers.UnlockOutcome` | ddl/table_lock.go:221-234 | An unlock job is done if and only if its last table is dealt with or none was left |
| `JobHandlers.CancelOutcome` | ddl/rollingback.go:234-268 | What a cancel does to modify column, set default, rename index and lock jobs |
| `JobHandlers.NoStateOutcome` | ddl/rollingback.go:151-157 | An index that is in the table without a state: an add job begins with it, and a cancelled drop goes on |
| `JobHandlers.DropColumnNeedsDefault` | ddl/column.go:244-262 | A drop column job hides its column only if the default value for it can be computed |
| `HandlerAgreement.ColumnRunAgrees` | ddl/column.go:156-316 | A run of an add or drop column job by its handler, given the facts that a table holds, leaves it in the state in which the machine on that table does |
| `HandlerAgreement.ColumnFailAgrees` | ddl/ddl_worker.go:590-613 | So does a run that cannot read the table or write the new one |
| `HandlerAgreement.ColumnLimitAgrees` | ddl/ddl_worker.go:606-611 | One error more than allowed cancels the job in the machine if and only if the worker does |
| `HandlerAgreement.ColumnCancelAgrees` | util/admin/admin.go:87-175 | A cancel reaches the job in the machine if and only if it does in the queue |
| `HandlerAgreement.ColumnRefuseAgrees` | ddl/table.go:802-811 | A new table that fails its check ends the job in its first step, in both, and plays no part later |
| `HandlerAgreement.NewJobsAgree` | ddl/ddl_worker.go:189-210 | Both begin with the same job |
| `HandlerAgreement.IndexRunAgrees` | ddl/index.go:339-560 | For all facts a run of an add or drop index job, forward, rolling back or cancelled, leaves it in the state to which the matching owner step of the index machine leads, turns back or gives up exactly if its checks and its backfill say so, and otherwise tries again |
| `HandlerAgreement.CreateIndexAgrees` | ddl/index.go:339-504 | Of an add job: none, delete only, write only, write reorganization, public, one state in each run that passes its checks and is written; the snapshot is taken in the first run in reorganization |
| `HandlerAgreement.DropIndexAgrees` | ddl/index.go:506-560 | Of a drop job or a rollback: public, write only, delete only, delete reorganization, absent; from write reorganization it goes nowhere |
| `HandlerAgreement.CancelAddAgrees` | ddl/rollingback.go:75-102 | Of a cancelled add job: it turns back, unless its backfill has begun and ends first |
| `HandlerAgreement.CancelDropAgrees` | ddl/rollingback.go:145-173 | Of a cancelled drop job: it is over with the index public again, unless deleting has begun |
| `HandlerAgreement.LockRunAgrees` | ddl/table_lock.go:23-99 | So does a run of a lock or unlock job |
| `JobLifecycle.PanicMeansSilence` | ddl/ddl.go:611-620 | For every way to run jobs: some history of events makes the waiting client panic if and only if some run gives the job up without an error |
| `JobLifecycle.RunKeepsInv` | ddl/ddl_worker.go:395-428 | In every run with errors, panics, aborted transactions, cancels, error limits and entries too large, a job on its way back or given up carries an error |
| `JobLifecycle.HistoryIsExplained` | ddl/ddl.go:611-620 | No history of events brings a column, index or lock job into the history without success or an error, so no client panics |
| `JobLifecycle.SuccessWasEarned` | ddl/ddl_worker.go:395-404 | If success is reported then some run before it finished the job without an error |
| `JobLifecycle.SmoothJobSucceeds` | ddl/ddl_worker.go:362-462 | Every job that meets no trouble ends in success, without an error, after one run for each of its states |
| `JobLifecycle.CancelledBeforeRun` | util/admin/admin.go:114-175 | Every job cancelled before its first run ends in two runs, with an error |
| `JobLifecycle.CancelReaches` | util/admin/admin.go:87-175 | A cancel reaches a job in the queue if and only if it is not done, not on its way back, and in a state that can be rolled back |
| `JobLifecycle.CancelTakesBack` | util/admin/admin.go:87-111 | A job on its way is one that can be rolled back if and only if its cancel does not just let it go on |
| `JobLifecycle.PanicCancels` | ddl/ddl_worker.go:412-420 | For every handler, a run that panics turns the job over to be cancelled |
| `JobLifecycle.ErrorsCancelOnly` | ddl/ddl_worker.go:606-611 | For every handler, errors cancel a job if and only if it is still on its way forth, can be rolled back, and there are too many |
| `JobLifecycle.FailuresCancel` | ddl/ddl_worker.go:590-611 | For every handler and every sequence of facts on which each run returns an error and goes on with the job: the job goes on up to the limit of errors, and is cancelled with the next one if it can be rolled back then |
| `JobLifecycle.UnreadableFailsOn` | ddl/table.go:363-386 | A store that cannot be read is such a sequence, of any length up to the limit, for all column, index and lock jobs |
| `StreamAggregation.SegmentsAreGroups` | executor/aggregate.go:786-789 | Cutting rows where the group changes loses no row, puts only rows of one group together, and separates neighbouring groups |
| `StreamAggregation.SameMeans` | executor/aggregate.go:1075-1112 | Rows are of one group if and only if their columns hold the same, where nulls are all alike and like no value |
| `StreamAggregation.GroupingIsUnique` | executor/aggregate.go:786-789 | There is no other way to do that |
| `StreamAggregation.ChunkingIsIrrelevant` | executor/aggregate.go:995-1056 | The groups made from chunks are those of all rows together if and only if at every chunk border equal keys mean equal groups |
| `StreamAggregation.NoNullsFaithful` | executor/aggregate.go:1060-1206 | Rows without nulls always meet that condition |
| `StreamAggregation.NullMergesWithZero` | executor/aggregate.go:1080-1095 | A null and a zero are one group if a chunk border runs between them, and two if none does |
| `StreamAggregation.ResolveGroups` | executor/aggregate.go:1060-1206 | Each row is marked as the same group as the row before it exactly when all group items agree, nulls with nulls |
| `StreamAggregation.VecGroupChecker.SplitIntoGroups` | executor/aggregate.go:995-1056 | The offsets found are the ends of the groups of the chunk, and the answer tells whether the first key equals the last key of the chunk before |
| `StreamAggregation.VecGroupChecker.GetNextGroup` | executor/aggregate.go:1208-1217 | The rows between the offsets are the next group |
| `StreamAggregation.StreamAggExec.ConsumeOneGroup` | executor/aggregate.go:844-889 | One call appends the next result, whatever number of chunks its group spans, and leaves the others pending |
| `StreamAggregation.StreamAggExec.Next` | executor/aggregate.go:832-842 | A call fills the chunk up to its capacity or ends the execution; no result is lost, repeated or reordered |
| `StreamAggregation.StreamAggExec.Drain` | executor/aggregate.go:832-948 | For every sequence of capacities the calls together give one result for each group, in order, and the default result only for an empty input |
| `StreamAggregation.ResultsAreGroups` | executor/aggregate.go:844-948 | The results are those of the groups of all rows, or the default result if there are no rows and the query has one, if and only if the keys at chunk borders are faithful |
| `StreamAggregation.StreamAggExec.Close` | executor/aggregate.go:825-829 | After a close the checker can serve another execution if and only if this one came to its end or never began; otherwise its next group is out of range |
| `StreamAggregation.CloseEarly` | executor/aggregate.go:1219-1229 | Two groups, one taken, then a close: the checker asks for a group that is not there |
| `HashAggregation.SumPermutation` | executor/aggregate.go:633-655 | The result of a group does not depend on the order of its rows |
| `HashAggregation.GetGroupKey` | executor/aggregate.go:419-454 | The keys of the chunk are at the front of the buffer, keys of earlier chunks may follow |
| `HashAggregation.Allocated` | executor/aggregate.go:456-470 | Keys left in the buffer never make up a group, because each of them is in the map already |
| `HashAggregation.HashAggPartialWorker.UpdatePartialResult` | executor/aggregate.go:375-393 | A partial worker holds, for exactly the groups of its rows, the result of all its rows |
| `HashAggregation.HashAggPartialWorker.ShuffleIntermData` | executor/aggregate.go:397-416 | Every group is listed once, for the final worker that its hash names, and for no other |
| `HashAggregation.MergeAll` | executor/aggregate.go:484-521 | Whatever the batch size, every listed group is merged once |
| `HashAggregation.HashAggFinalWorker.ConsumeIntermData` | executor/aggregate.go:484-521 | A final worker holds the results of all rows of the workers heard so far, for exactly its own groups |
| `HashAggregation.HashAggFinalWorker.GetFinalResult` | executor/aggregate.go:523-551 | Every group is put out once with its result, in chunks no larger than the capacity |
| `HashAggregation.Execute` | executor/aggregate.go:734-772 | The sequential executor holds the result of all rows for exactly the groups of the input, and lists each group once |
| `HashAggregation.RunPartialWorker` | executor/aggregate.go:350-373 | A partial worker, from its first chunk to the shuffle, sends the results of all its rows, each group to the final worker that its hash names |
| `HashAggregation.RunFinalWorker` | executor/aggregate.go:484-551 | A final worker takes the data of the partial workers in any order, nothing from those with no group for it, and puts out each of its groups once with the result of all rows |
| `HashAggregation.ParallelIsSequential` | executor/aggregate.go:649-655 | Whatever chunks went to which worker and in whatever order their data arrived, every final worker ends with exactly those groups of the sequential executor that it owns, and the same results |
| `HashAggregation.ParallelExec` | executor/aggregate.go:633-655 | The whole pipeline: for every way to deal the chunks, every order of arrival, every hash and every number of workers, what all final workers put out together is what the sequential executor ends with, every group once and with the same result |
| `HashAggregation.OutputPermutation` | executor/aggregate.go:671-691 | The rows may reach the reader in any order |
| `HashAggregation.SumAndCountLawful` | executor/aggregate.go:507-515 | Sums and counts meet the laws that this needs of aggregate functions, which are asked only of partial results made from rows of one group |
| `HashAggregation.SumAndCountMeans` | executor/aggfuncs/func_avg.go:83-155 | The result of a group is the sum of its values and the number of its rows |
| `HashAggregation.FirstRowLawful` | executor/aggfuncs/func_first_row.go:93-115 | So does the first row of a column in which all rows of a group agree, as the group columns do |
| `HashAggregation.FirstRowOfGroup` | executor/aggfuncs/func_first_row.go:93-115 | There the result is that common value if the group has a row, and none otherwise |
| `HashAggregation.BothLawful` | executor/aggregate.go:507-515 | Two lawful functions of one query are lawful together |
| `HashAggregation.ConcatIsNot` | executor/aggregate.go:507-515 | A concatenation of values does not: two workers with one row each, and two orders of arrival give two results |
| `TableLocks.RunKeeps` | ddl/table_lock.go:23-99 | Every run of a lock or unlock job keeps locks shared only for reading, pre-locks owned by the running job, and what the job has taken |
| `TableLocks.PublicAfterPreLock` | ddl/table_lock.go:72-96 | A lock becomes public only after the job has pre-locked the table in an earlier run, or it was a public read lock before |
| `TableLocks.CancelKeeps` | ddl/rollingback.go:300-303 | A cancel keeps the locks sound if and only if no table is pre-locked at that moment |
| `TableLocks.LocksAreSafe` | ddl/table_lock.go:23-99 | In every run of jobs of many sessions without such a cancel a finished lock job holds all its tables as asked, and two sessions hold one table only for reading |
| `TableLocks.LeftoverIsTakenForOwn` | ddl/table_lock.go:119-123 | From every sound state without a running job: one session asks for a free table, its job is cancelled over the pre-lock, the job of another session then finishes, and the lock still belongs to the first |
| `TableLocks.UnlockSettled` | ddl/table_lock.go:197-219 | Unlocking takes exactly the session off the lock and keeps its type; a cleanup takes all sessions off it |
| `TableLocks.CheckMeansReady` | ddl/table_lock.go:141-163 | For a session that has given up its locks the first check passes if and only if every table can be taken |
| `TableLocks.CheckIsRelock` | ddl/table_lock.go:141-163 | On a sound lock the first check passes if and only if the session could take the table after giving up its own lock on it |
| `TableLocks.ReadyRuns` | ddl/table_lock.go:58-96 | If every table can be taken, every run succeeds |
| `TableLocks.NotReadyRuns` | ddl/table_lock.go:36-70 | If some table cannot, the job is never done: it is cancelled at once or when it comes to that table |
| `TableLocks.RunShortens` | ddl/table_lock.go:23-99 | From every sound state each run brings the running job nearer to its end |
| `TableLocks.JobEnds` | ddl/table_lock.go:23-99 | From every sound state the running job, left alone, ends after at most one run for each table to unlock and two for each to lock; an unlock job is done, and a lock job is done if and only if, once the locks on its list are given up, every table it asks for is free or shared for reading, and cancelled otherwise |
| `TableLocks.JobLeaves` | ddl/table_lock.go:165-219 | Of every table that a job does not ask for: if it is on the list, the session of the job, or in a cleanup every session, has given it up at the end, and if not, it is untouched; the locks of other sessions stay on every table unless they are cleaned up |
| `TableLocks.ReleaseLock` | ddl/table_lock.go:197-219 | The cut in the list of sessions takes off exactly the session |
| `TableLocks.LockWorker.RunOnce` | ddl/table_lock.go:23-99 | One run is the step of the machine the run results are about, and keeps the invariant |
| `SlowQueries.TopIsLeast` | domain/topn_slow_query.go:30-44 | The top of the heap is the fastest query in it |
| `SlowQueries.SlowQueryHeap.Push` | domain/topn_slow_query.go:34-36 | The heap order holds, and the contents are as before and one more |
| `SlowQueries.SlowQueryHeap.Pop` | domain/topn_slow_query.go:38-44 | The heap order holds, and the contents are as before without the top |
| `SlowQueries.SlowQueryHeap.Add` | domain/topn_slow_query.go:149-159 | The heap keeps the N slowest of all queries offered since the last expiry and of those that survived it, whatever their order |
| `SlowQueries.SlowQueryHeap.RemoveExpired` | domain/topn_slow_query.go:46-63 | The heap holds exactly the queries that have not expired, in heap order |
| `SlowQueries.ExpiryForgets` | domain/topn_slow_query.go:46-63 | After an expiry the heap holds the N slowest of all live queries if and only if no query left out before is still live, or N are kept and none of them has expired |
| `SlowQueries.ForgottenQuery` | domain/topn_slow_query.go:46-63 | Room for one, two queries, and the slower one expires: the answer is empty although the other is still live |
| `SlowQueries.SortedIsHeap` | domain/topn_slow_query.go:65-71 | Sorting for a query keeps the heap order |
| `SlowQueries.SlowQueryHeap.Query` | domain/topn_slow_query.go:65-71 | The answer is the given number of slowest queries, slowest first, and the contents stay; up to N of them are the slowest of all queries since the last expiry |
| `SlowQueries.TopOfBoth` | domain/topn_slow_query.go:187-194 | Up to N slowest of the contents of two heaps are the slowest of everything offered to either |
| `SlowQueries.TopNSlowQueries.Append` | domain/topn_slow_query.go:138-160 | The recent queue holds the last of all queries, and each heap the N slowest of its kind since the last expiry |
| `SlowQueries.TopNSlowQueries.RemoveExpired` | domain/topn_slow_query.go:166-169 | Each heap keeps exactly its queries that have not expired, and what it has left out before is forgotten; the recent queue stays |
| `SlowQueries.TopNSlowQueries.QueryTop` | domain/topn_slow_query.go:181-197 | The answer for each kind, and for both together, is the slowest of what the heaps hold, slowest first; up to N of them are the slowest of all queries since the last expiry |
| `SlowQueries.Observe` | domain/topn_slow_query.go:138-197 | For every sequence of queries, a question for up to N of them is answered with the slowest user queries of the sequence and with its last queries |
| `SlowQueries.TopNSlowQueries.QueryRecent` | domain/topn_slow_query.go:87-105 | The answer is the most recent queries, newest first |
| `HandleRanges.EncodeIntOrder` | util/codec/number.go:26-42 | Encoded integers are ordered as the integers are, and different integers are encoded differently |
| `HandleRanges.RowKeyDecodes` | tablecodec/tablecodec.go:62-76 | A row key is nineteen bytes and spells t, the table, _r and the handle |
| `HandleRanges.RowKeyOrder` | tablecodec/tablecodec.go:62-76 | Row keys are ordered by table and then by handle |
| `HandleRanges.PrefixNext` | kv/key.go:43-58 | The carry loop adds one to the number that the bytes spell, or appends a zero if all are ones |
| `HandleRanges.BetweenKeyAndNext` | kv/key.go:33-58 | For every two keys: what lies between a key and its next one is the keys with the prefix and the proper prefixes of the next key that are not prefixes of the key; if all bytes are ones, it is the key alone |
| `HandleRanges.NextIsPrefixEnd` | kv/key.go:33-42 | The keys from k up to its next are exactly those with the prefix k, if and only if k is not empty and its last byte is below 255 |
| `HandleRanges.NextIsBehindPrefix` | kv/key.go:33-42 | Among keys no shorter than a k that is not all ones, those from k up to its next are exactly those with the prefix k |
| `HandleRanges.ShorterKeyBetween` | kv/key.go:33-42 | A shorter key can lie in between without the prefix |
| `HandleRanges.OnesLoseKeys` | kv/key.go:52-56 | Behind a key of all ones a key with the prefix is left out |
| `HandleRanges.OneRangeReads` | distsql/request_builder.go:247-253 | For every key: the range of one handle reads its row key, what that is a prefix of, and keys cut off from the next row key; for the greatest handle, its row key alone |
| `HandleRanges.TableHandlesToKVRanges` | distsql/request_builder.go:236-257 | One range for each maximal run of handles that follow each other, without running over the greatest handle |
| `HandleRanges.MergingKeepsKeys` | distsql/request_builder.go:234-235 | For every list of handles and every key, the merged ranges read the key if and only if the range of some handle does |
| `HandleRanges.RangesReadHandles` | distsql/request_builder.go:236-257 | The row of a handle is read if and only if the handle is listed |
| `HandleRanges.SortedHandles` | distsql/request_builder.go:234-235 | The ranges are in order and do not overlap if and only if the handles are strictly increasing |
| `HandleRanges.FewestRanges` | distsql/request_builder.go:234-235 | Any ranges that read exactly the listed handles are at least as many |
| `HandleRanges.RangeStaysInTable` | tablecodec/tablecodec.go:62-67 | All keys between two row keys of a table begin with the record prefix of that table |

## Left out

- Etcd, owner election, timers, network, region lookup and binlog: they appear as events or as parameters.
- Partitioned tables, prefix lengths of index columns, generated columns and column defaults.
- The table data that modify column from null to not null reads; in `JobHandlers` its check and its rollback have every outcome.
- The counter of column IDs, which a rollback does not restore.
- Panics inside the column, index and lock machines on tables; in `JobLifecycle` a run may panic at any time.
- Handlers of job types other than column, index and lock jobs.
- Whether a rename of an index to its own name ever ends: its handler panics in every run, as in `JobHandlers`.
- A lock job with an empty list of tables, which never ends, and tables dropped while a lock job runs.
- An empty slow-query limit: `SlowQueries.SlowQueryHeap.Add` requires a positive one, because the code reads the top of an empty heap otherwise.
- Errors of expressions, of memory and of cancelled queries in both aggregations, and the default row of hash aggregation for an empty input.
- Float, decimal, time and JSON values as group keys: the model has integers with a null flag; two decimals that are equal but encoded differently are one more way for keys at chunk borders not to be faithful.
- ReorgResults.ReorgCtx.RunReorgJob: does not model the row count, which only informs the user.
- Backfill.AddPhysicalTableIndex: does not model two workers at once; their transactions are interleaved in `OnlineIndex`.
- JobLifecycle.HistoryIsExplained: is about column, index and lock jobs; of other job types only what `PanicMeansSilence` says of every handler.
- Index ranges, table scan ranges and the other encodings of keys.

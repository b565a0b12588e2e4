# Armillary, modelled and proved in Dafny

Armillary moves tables between systems. This project models the parts of it whose correctness is a
protocol, a program transformation or an invariant over many runs, and proves what its code and its
user guides promise of them.

* **SCD2 snapshots.** A snapshot run compares a staged batch with the current versions of a history
  table, closes the versions that changed or disappeared and opens new ones. Two sinks implement it:
  the Parquet sink reads, splits, classifies and rewrites a file; the Postgres sink stages rows, takes
  one diff, closes by surrogate id, inserts through a filter that is evaluated again after the close,
  and may then delete. `Snapshot.Apply` is a reference meaning of one run; Parquet is proved to
  compute it always, Postgres exactly under conditions given below, and history properties are proved of it over every sequence of runs. Modules `Decimal`,
  `Snapshot`, `SnapshotPlan`, `SnapshotDiff`, `ParquetSnapshot`, `SnapshotHistory`, `SnapshotRows`,
  `SnapshotCounts`, `PostgresSnapshot`, `SinkRefinement`, `PostgresRepeats`, `SnapshotReceipt`,
  `SnapshotSignals`, `SinkAgreement`.
* **Column lineage.** The walker computes, for each output column of a query plan, the base columns
  behind it. The plan algebra gets a meaning in which every cell carries the base columns it was
  computed from, and the walker's lists are proved to cover them; a second reference, read off the plan by
  positions, is proved to be exactly what is listed. Modules `Lineage`, `LineageWalker`,
  `LineageSoundness`, `LineageListing`, `LineageNonInterference`, `LineageKinds`, `LineagePrecision`,
  `LineageDependencies`, `LineageLimits`.
* **Backfill coordinator.** A launcher loop, a semaphore, concurrent tasks, two stop flags and a store
  that outlives crashes, as a transition system with an inductive invariant; the store itself is a
  class. Modules `BackfillStore`, `Backfill`, `BackfillProof`, `BackfillTheorems`, `BackfillRecords`,
  `BackfillResume`.
* **Filter pushdown.** The printer of SQL filters, a reader of its text, the round trip between them,
  and pushdown under three-valued logic, where the database acts on the text it is sent. Modules
  `FilterText`, `FilterRoundTrip`, `Pushdown`.
* **Partition overwrite.** Grouping rows by partition value, directory names, and the replacement of
  directories on a disk that records every write, so that a crash is any prefix of the record. Modules
  `Partition`, `PartitionSwap`, `PartitionOverwrite`.
* **Row-by-row Postgres strategies.** Append, upsert, truncate-insert and delete-insert inside one
  transaction. Modules `PostgresWrite`, `PostgresWriteLaws`, `PostgresReplay`, `PostgresOutcome`.

`Lists` holds the one list operation everything is phrased with. `dafny verify dfyconfig.toml` checks
the whole project.

## Reading the results

Where the code keeps a promise only under a condition, the condition is stated and proved exact, or a
family of inputs shows that it cannot be dropped:

* A batch that stages one key twice opens two current versions in the Parquet sink, which keeps one per
  key if and only if the staged keys are distinct (`ParquetOneCurrentIff`, and `ShapeIff` over histories;
  the same condition makes a rerun change nothing, `RerunIsIdentityIff`). The Postgres sink keeps one if
  and only if every key staged more than once already has a current version and none of its staged rows
  differs from it (`OneCurrentAfterMergeIff`). The sinks classify a repeated key differently: a Postgres run
  leaves the reference run's rows if and only if repeated keys are new (`MergedIsApplyIff`), and that is
  also when its receipt is the planner's (`DiffIsPlanIff`). No batch makes the receipt's subtraction
  saturate if and only if the target has one current version per key (`NeverSaturatesIff`); a target
  without is reachable (`RollUpSaturates`).
* The planner's receipt against what the reference run does: `rows_inserted` is the versions opened if and
  only if no key staged again is first staged unchanged, `rows_updated` the versions closed if and only if
  none is first staged changed (`InsertedIff`, `UpdatedIff`). `rows_deleted` is documented as the rows removed
  but counts keys: it is the rows removed if and only if no gone key has closed versions, or nothing is
  deleted (`DeletedIff`).
* The Postgres surrogate id joins key columns with `|`. Over a set of keys every run is the reference run if
  and only if joining tells those keys apart (`AlwaysReferenceIff`). When two keys join to one text, changing
  one closes the other's version and opens it again (`SharedIdReopens`); the table has no unique constraint
  on the id (postgres_snapshot.rs:132-157) that would refuse this. A separator in the first key column, or
  in a key of one column, does no harm (`CleanKeysJoinApart`).
* The guide says a time between two runs returns what the earlier one staged. That holds of the tracked
  columns (`InvalidateTimeTravel`). Other columns are those of the run that opened the version, so the whole
  row is the staged one only under the condition of `QueryIsStagedIff`.
* The two sinks leave the same history, surrogate ids aside, if and only if no changed row has the same
  64-bit hash as its current version (`SinksAgreeIff`; `HistoriesAgreeIff` for what the two sinks write over
  all runs). On an input without batches, where Parquet still treats every current key as gone and Postgres
  returns early, they leave the same table if and only if deletes are ignored or nothing is current
  (`EmptyInputIff`, `EmptyInputParts`).
* What a sink compares is stated of columns: a Postgres run closes a version and opens the staged row if and
  only if a compared column differs (`PostgresSupersedesIff`); Parquet, hash collisions aside, if and only if
  the text of one does, where a null and the text `\0NULL`, or a missing time and the smallest 64-bit integer,
  count as equal (`ParquetSupersedesIff`).
* A backfill that ends Completed has every iteration Succeeded if and only if no unfinished iteration
  shared its key with a finished one when it began, because resuming skips by key and not by index
  (`FinalStatus`, `ShadowedCompletes`). A list of values may repeat a key
  (crates/armillary-engine/src/backfill.rs:357-378), and from a fresh backfill of two such iterations a crash
  and a resume leave the second one unrun (`RepeatedKeyLosesIteration`).
* A coordinator makes progress from every unfinished state except when it waits for a permit of an empty
  semaphore, that is with concurrency 0 (`NeverStuck`).
* The lineage of a constant projected over a filter is empty although the filter decides whether the
  constant appears (`ConstantColumnLeaks`). A union, or an alias, directly over an aggregate with a
  qualified group column loses that column's origin, because the walker records it under `table.column`
  while a union looks up field names (`UnionLosesGroupedColumn`, `AliasHidesGroupedColumn`).
  `derive_column_lineage` is public and takes any logical plan, and these are plans of its input type; its
  only caller in the repository (executor.rs:1559-1567) passes the plan of a parsed SQL text, and no SQL text
  whose plan has this shape is shown here.
* A column lists all it depends on, by positions in the plan, and exactly that when no join has a name on both
  sides and no union gives two columns one name (`ListedIsDependedOn`); otherwise the walker merges equal names
  (`JoinMergesNames`), and `WalkIsListed` says what is listed then.
* A column listed as direct holds constants and stored values (`DirectMeansCopied`) as long as nothing
  computed hides behind a direct entry (`Clear`). A join's residual filter hides nothing if and only if what it
  names besides join keys is direct on both sides (`MarksDirectIff`), since the walker marks what it names as
  filter columns; a projection hides nothing, whatever its input, if and only if no direct expression is the
  last of a computed one's name (`KeepsComputedIff`). `ResidualFilterHidesComputed` is an input where it fails.
* Partition columns are found by the first batch's index. Later batches are asked only whether they have
  the column, and are then read at that index: of all data with some columns, rows are grouped by their own
  partition column if and only if every batch that can hold rows has it at the first batch's index, or the
  columns alone stop the write (`GroupedByColumnIff`, and `AlwaysRightIff` for any column).
* The comment on partition replacement calls it atomic, but directories are removed file by file. Every
  crash point shows a partition wholly old, gone or wholly new if and only if no replaced directory held
  two or more files (`WhollyOldOrNewIff`), provided that no directory of exactly two files already holds
  the new data file, which would look new once the other is removed. The directories this operation writes
  hold one file, so what it wrote is replaced whole (`WrittenPartitionsAreSingleFiles`, `RewriteIsWhole`).
  The new content is complete on disk before the first old file is removed, so at no write is neither
  content whole (`InsertOverwrite`).
* Upsert and delete-insert, transactions included, leave the same rows in three cases: without the unique
  constraint if and only if the incoming rows are what is stored under their keys; with it and distinct keys
  if and only if no replaced row holds a value in a column the incoming rows lack; with it and a repeated key
  if and only if the batch already stands in the table, because delete-insert then fails
  (`UpsertIsDeleteInsertIff`).
* Replaying a write that may have been rolled back changes nothing: for an upsert if and only if no incoming
  key contains a null or there is no unique constraint; for a delete-insert if and only if no key contains a
  null or a repeated key makes it fail; for an append if and only if nothing comes in, or the unique
  constraint meets a key without nulls; for a truncate-insert always (`UpsertReplayIff`,
  `DeleteInsertReplayIff`, `AppendReplayIff`, `TruncateInsertReplay`). The guide's table of replay-safe
  strategies does not mention nulls.
* An upsert needs a unique constraint on the key columns and otherwise fails on its first row
  (`UpsertCommitsIff`); the table the sink creates by itself (postgres_sink.rs:199-203) has none.
* A limit sent along with filters gives the first rows of the filtered table if and only if it does not cut
  the rows passing the pushed filters, or all it keeps pass every filter, or none it cuts off does
  (`LimitedAnswerIff`); it follows that it is harmless when every filter is pushed, and `LimitLosesRows` is
  an input where it is not. Nothing in the repository shows `scan` receiving a limit together with a filter
  it reported as unsupported: a test (postgres_source.rs:901) passes a limit with a supported filter, and the
  query engine that decides is not part of this model.

## What is taken as given

* The planner is the one in `crates/armillary-engine/src/snapshot.rs`. Its 64-bit field hash is an
  arbitrary function; nothing is assumed of it. A Postgres md5 digest is represented by what is digested.
* Key columns are text, without nulls in Postgres (see below); times are integers; the clock of a run is a
  parameter, required to be later than all earlier ones where a history theorem needs it.
* SQL statements have their relational meaning; a transaction commits as a whole or not at all. Whether a
  unique constraint exists is a parameter of the row-by-row target: `ON CONFLICT` fails without one.
* In the lineage semantics scalar, aggregate and window functions, casts and the sort order are
  arbitrary functions; names are required to be unambiguous (`WellNamed`), which can be read off a plan.
* Backfill steps are sequentially consistent, store writes succeed, tasks do not panic, and two
  coordinators do not run one backfill at once. Distinct keys are not assumed.
* Collections without an order in the original (hash maps, sets, table rows) are iterated in an
  arbitrary order here, so no result depends on it.

## Model

| member | source | states |
|---|---|---|
| SnapshotPlan.PlanSnapshotMerge | crates/armillary-engine/src/snapshot.rs:257-313 | Every staged row is classified against what earlier rows of its key left over, every unstaged current key is Gone exactly once, and the counters count the classification |
| SnapshotPlan.StatsCount | crates/armillary-engine/src/snapshot.rs:257-313 | Each counter of the plan is the number of its rows of that class, and the deletes are the gone rows of their mode |
| SnapshotDiff.ClassifyDiff | crates/armillary-connectors/src/snapshot_query.rs:560-600 | The diff preview counts, and samples the first `limit` changed, new and gone keys of, a classification the planner could have produced |
| SnapshotDiff.SummarySays | crates/armillary-connectors/src/snapshot_query.rs:560-600 | Each counter is the number of rows of its class, and the sample is the first `limit` rows that are not unchanged |
| ParquetSnapshot.SplitCurrent | crates/armillary-connectors/src/parquet_snapshot.rs:181-193 | Splits the target into its current and its historical rows, in order |
| ParquetSnapshot.KeepHistorical | crates/armillary-connectors/src/parquet_snapshot.rs:237-263 | Historical rows survive exactly as the reference run says: all, or all but those of gone keys in delete mode |
| ParquetSnapshot.RewriteCurrent | crates/armillary-connectors/src/parquet_snapshot.rs:265-302 | Kept plus closed rows are the fates of the current rows, for every class and hard-delete mode |
| ParquetSnapshot.OpenVersions | crates/armillary-connectors/src/parquet_snapshot.rs:304-317 | The versions opened are those of the new and changed staged rows |
| ParquetSnapshot.WriteParquetSnapshot | crates/armillary-connectors/src/parquet_snapshot.rs:55-345 | For every target and input, repeated keys and absent input included, the file written holds the rows of the reference run and the receipt is the planner's |
| SnapshotHistory.SignalsAfterRun | crates/armillary-connectors/src/parquet_snapshot.rs:234-317 | The effect of one run with distinct staged keys and a later clock on the answer to "what did key k look like at time t", for every k and t |
| SnapshotHistory.TimeTravel | docs/snapshots-scd2.md:130-138 | After any runs with an increasing clock and distinct staged keys, in any mix of modes, the point-in-time query answers for every key and time with what a replay of the runs says |
| SnapshotHistory.InvalidateTimeTravel | docs/snapshots-scd2.md:130-138 | With `invalidate`, after runs with an increasing clock and distinct staged keys, asking for a time between two runs gives the tracked columns of exactly the rows staged by the earlier one, however many runs follow |
| SnapshotRows.RowTimeTravel | docs/snapshots-scd2.md:130-138 | After any runs with an increasing clock and distinct staged keys, in any mix of modes, the query returns whole rows as a replay says: the row of the last run at which the key appeared or its signal changed |
| SnapshotRows.InvalidateRowTravel | docs/snapshots-scd2.md:130-138 | With `invalidate`, a time between run i and the next gives the row of the last run, up to run i, at which the key appeared or its signal changed |
| SnapshotRows.QueryIsStagedIff | docs/snapshots-scd2.md:130-138 | That row is the one run i staged if and only if the key was not staged, was new, changed its signal, or is kept with the same row |
| SnapshotHistory.ReachableShape | crates/armillary-connectors/src/parquet_snapshot.rs:265-317 | Every target reachable by runs with an increasing clock and distinct staged keys has current iff open, positive intervals, disjoint intervals per key and at most one current row per key |
| SnapshotHistory.ShapeIff | crates/armillary-connectors/src/parquet_snapshot.rs:304-317 | Reference runs with an increasing clock keep one current row per key throughout if and only if each of them stages distinct keys |
| SnapshotHistory.OneCurrentIffDistinct | crates/armillary-connectors/src/parquet_snapshot.rs:304-317 | The reference run keeps one current row per key if and only if its staged keys are distinct |
| SinkAgreement.ParquetOneCurrentIff | crates/armillary-connectors/src/parquet_snapshot.rs:304-317 | So does what the Parquet sink writes |
| PostgresRepeats.OneCurrentAfterMergeIff | crates/armillary-connectors/src/postgres_sink.rs:295-400 | Over keys that joining tells apart, the Postgres transaction keeps one current row per key if and only if every key staged more than once has a current version that none of its staged rows differs from |
| SnapshotHistory.RerunIsIdentityIff | crates/armillary-connectors/src/parquet_snapshot.rs:237-317 | Running the same batch again later changes nothing if and only if its keys are distinct |
| SnapshotHistory.ClosedVersionsStay | crates/armillary-connectors/src/parquet_snapshot.rs:237-263 | Outside delete mode every closed version survives a run unaltered |
| SnapshotCounts.StagedRowsConserved | crates/armillary-engine/src/snapshot.rs:271-295 | Unchanged, changed and new add up to the staged rows |
| SnapshotCounts.CurrentRowsConserved | crates/armillary-engine/src/snapshot.rs:271-310 | With distinct staged keys, the current rows of the classes unchanged, changed and gone add up to the current rows |
| SnapshotReceipt.PlannedCurrentsConserved | crates/armillary-engine/src/snapshot.rs:271-310 | The planner counts every current row once as unchanged, changed or gone, whatever is staged, on a target with one current row per key |
| SnapshotReceipt.PlannedStagedConserved | crates/armillary-engine/src/snapshot.rs:271-295 | The planner counts every staged row once as unchanged, changed or new, whatever is staged |
| SnapshotCounts.TargetRowsConserved | crates/armillary-connectors/src/parquet_snapshot.rs:234-317 | Rows after = rows before + changed + new, less every version of the gone keys in delete mode |
| SnapshotCounts.PlanCounts | crates/armillary-engine/src/snapshot.rs:257-313 | With distinct staged keys the planner's counters are the counts of the reference classification |
| SnapshotCounts.DiffStatsAgree | crates/armillary-connectors/src/postgres_snapshot.rs:369-392 | On a target with one current row per key, the roll-up of the reference classes does not saturate and equals the counters of the reference classification, though it counts changed keys on the other side of the join |
| PostgresSnapshot.SnapshotSink.StageRows | crates/armillary-connectors/src/postgres_sink.rs:277-293 | The batch, chunk and row loops stage every row once, in order, for every batch size |
| PostgresSnapshot.SnapshotSink.Write | crates/armillary-connectors/src/postgres_sink.rs:255-424 | The transaction runs its statements in the code's order; without batches nothing happens |
| SinkRefinement.JoinBarInjective | crates/armillary-connectors/src/postgres_snapshot.rs:294-303 | Joining key columns with `\|` is injective when no column after the first contains it |
| SinkRefinement.CleanKeysJoinApart | crates/armillary-connectors/src/postgres_snapshot.rs:294-303 | So joining tells all keys of one arity apart whose later columns have no separator |
| SinkRefinement.IdsAreUnique | crates/armillary-connectors/src/postgres_snapshot.rs:294-303 | Surrogate ids in a Postgres target are pairwise distinct when joining tells its keys apart |
| SinkRefinement.CloseIsFate | crates/armillary-connectors/src/postgres_snapshot.rs:250-258 | Closing by surrogate id does to each row what its class asks for, repeated staged keys included, when the ids are distinct |
| SinkRefinement.FilterAfterClose | crates/armillary-connectors/src/postgres_snapshot.rs:271-323 | The insert filter, evaluated on the closed table, selects exactly the rows that were changed or new in the earlier diff, repeated keys included |
| SinkRefinement.DiffCounts | crates/armillary-connectors/src/postgres_snapshot.rs:203-244 | With one current row per key and distinct staged keys, the three numbers of the diff query are the reference counts, and changed plus new are the rows opened |
| SnapshotReceipt.NeverSaturatesIff | crates/armillary-connectors/src/postgres_snapshot.rs:376-378 | No staged batch makes the subtraction saturate if and only if the target has one current row per key |
| SnapshotReceipt.RollUpSaturates | crates/armillary-connectors/src/postgres_snapshot.rs:376-378 | A batch staging a new key twice, then one differing row of it: two changed ids against one staged row |
| SnapshotReceipt.DiffIsPlanIff | crates/armillary-connectors/src/postgres_snapshot.rs:369-392 | On a target with one current row per key, the receipt rolled up from the diff query is the planner's if and only if every key staged more than once is new |
| SnapshotReceipt.InsertedIff | crates/armillary-engine/src/snapshot.rs:180-205 | The receipt's inserted rows are the versions the reference run opens if and only if no key staged again is first staged unchanged |
| SnapshotReceipt.UpdatedIff | crates/armillary-engine/src/snapshot.rs:180-210 | Its updated rows are the versions closed if and only if no key staged again is first staged changed, on a target with one current row per key |
| SnapshotReceipt.DeletedIff | crates/armillary-engine/src/snapshot.rs:180-215 | Its deleted rows, documented as those physically removed, are that if and only if no gone key has closed versions or nothing is deleted, on a target with one current row per key |
| SinkRefinement.GoneKeys | crates/armillary-connectors/src/postgres_sink.rs:353-371 | Reading keys back by the gone ids, after the inserts, returns exactly the gone keys, when the ids are distinct |
| SinkRefinement.MergedIsEffect | crates/armillary-connectors/src/postgres_sink.rs:295-400 | For any staged rows, repeated keys included, the transaction does to each row what the class of its key asks for, when the target's ids are distinct |
| SinkRefinement.MergedIsApply | crates/armillary-connectors/src/postgres_sink.rs:295-400 | Over keys that joining tells apart, and with distinct staged keys, the whole transaction is the reference run, row for row, in all three hard-delete modes |
| PostgresRepeats.MergedIsApplyIff | crates/armillary-connectors/src/postgres_sink.rs:295-400 | With any staged keys it leaves the reference run's rows if and only if every key staged more than once has no current version yet |
| PostgresRepeats.AlwaysReferenceIff | crates/armillary-connectors/src/postgres_snapshot.rs:294-303 | For a set of keys, every run of distinct keys of it on every target over it is the reference run if and only if joining tells the keys apart |
| SinkAgreement.RunKeepsGood | crates/armillary-connectors/src/postgres_sink.rs:295-400 | A run later than the target, with distinct staged keys, re-establishes everything the next run relies on |
| SinkAgreement.PostgresHistory | crates/armillary-connectors/src/postgres_sink.rs:255-424 | Every sequence of Postgres writes with distinct staged keys, over keys that joining tells apart, is from an empty table a history, so time travel and the SCD2 shape hold of it |
| SinkAgreement.SinksAgree | crates/armillary-connectors/src/parquet_snapshot.rs:197-317 | From targets equal up to ids, with distinct staged keys and no hash collision of a changed row with its current version, one run of each sink ends in targets equal up to ids |
| SinkAgreement.SinksStayTogether | crates/armillary-connectors/src/parquet_snapshot.rs:197-317 | As long as no run meets such a collision, both sinks keep run for run, in every mode, the same history up to ids |
| SinkAgreement.SinksAgreeIff | crates/armillary-connectors/src/parquet_snapshot.rs:483-530 | They agree on a table if and only if no changed row collides with its current version under the hash |
| SnapshotSignals.DistinctIff | crates/armillary-connectors/src/postgres_snapshot.rs:286-290 | The diff's comparison is true if and only if some tracked column differs, or `updated_at` in timestamp mode |
| SnapshotSignals.ParquetSignalsIff | crates/armillary-connectors/src/parquet_snapshot.rs:482-556 | Without hash collisions Parquet signals differ if and only if the text of some tracked column does, or the time, a null counting as its sentinel |
| SnapshotSignals.PostgresSupersedesIff | crates/armillary-connectors/src/postgres_snapshot.rs:271-323 | The current version of a staged row's key is closed now and the row opened under its md5 id if and only if a compared column differs; otherwise neither happens |
| SnapshotSignals.ParquetSupersedesIff | crates/armillary-connectors/src/parquet_snapshot.rs:234-317 | The same of the rows Parquet writes, texts compared, without hash collisions |
| SnapshotSignals.ParquetIdsUnique | crates/armillary-connectors/src/parquet_snapshot.rs:636-652 | In every Parquet history of runs with an increasing clock and distinct staged keys, ids are pairwise distinct unless lists of texts share a hash |
| SinkAgreement.WritesAgreeIff | crates/armillary-connectors/src/parquet_snapshot.rs:55-345 | From targets equal up to ids, over keys that joining tells apart and with distinct staged keys, the file Parquet writes and the table the transaction leaves are equal up to ids if and only if no changed row collides with its current version |
| SinkAgreement.HistoriesAgreeIff | crates/armillary-connectors/src/postgres_sink.rs:255-424 | Over whole sequences of such runs from empty targets, they are equal up to ids after every run if and only if no run meets a collision |
| SinkAgreement.EmptyInputIff | crates/armillary-connectors/src/postgres_sink.rs:158-165 | With no batches both sinks leave the same rows if and only if deletes are ignored or nothing is current |
| SinkAgreement.EmptyInputParts | crates/armillary-connectors/src/postgres_sink.rs:158-165 | With one current row, Parquet closes it under `invalidate` and drops it under `delete`, and Postgres leaves it |
| PostgresRepeats.SharedIdReopens | crates/armillary-connectors/src/postgres_snapshot.rs:294-303 | Two keys with one joined text: when the first changes, the second's unchanged version is closed and opened again, where the reference run leaves it alone |
| LineageWalker.WalkPlan | crates/armillary-datafusion/src/column_lineage.rs:103-461 | The recursive walk with its map-filling loops computes the function the lineage theorems are about, for every plan |
| LineageWalker.ProjectionLoop | crates/armillary-datafusion/src/column_lineage.rs:138-188 | One entry per output name, upstreams found through the input's map or kept as direct references |
| LineageWalker.FilterLoop | crates/armillary-datafusion/src/column_lineage.rs:191-220 | The predicate's upstreams are appended to every entry |
| LineageWalker.JoinLoop | crates/armillary-datafusion/src/column_lineage.rs:223-288 | Entries of both sides are reclassified and merged by name |
| LineageWalker.WindowLoop | crates/armillary-datafusion/src/column_lineage.rs:346-382 | Window columns are added to the map they are resolved against |
| LineageWalker.MergeLoop | crates/armillary-datafusion/src/column_lineage.rs:385-408 | A union input's columns are merged by position under the output names |
| LineageSoundness.ProvenanceSound | crates/armillary-datafusion/src/column_lineage.rs:103-461 | Every base column a value flows from into an output cell is listed for that column: over the whole algebra, for every database and every choice of functions |
| LineageListing.EveryColumnListed | crates/armillary-datafusion/src/column_lineage.rs:103-461 | Every output column has an entry, under the key the walker keeps for it |
| LineageListing.ListedUnderItsName | crates/armillary-datafusion/src/column_lineage.rs:103-461 | It is found under the column's name when that is the key, which it is not for a qualified group column |
| LineageListing.ListedLeavesAreScanned | crates/armillary-datafusion/src/column_lineage.rs:103-461 | Every listed column is a column of some table scan in the plan |
| LineagePrecision.WalkIsListed | crates/armillary-datafusion/src/column_lineage.rs:103-461 | For every well-named plan the map has exactly the reference's names, and under each exactly the base columns behind it with their kinds: copied, cast, derived, filter, join key or passthrough, grouping, aggregated, window partition, order or input |
| LineageDependencies.ListedIsDependedOn | crates/armillary-datafusion/src/column_lineage.rs:103-461 | Every base column an output column depends on by positions is listed for it; when no join has a name on both sides and no union repeats one, nothing else is |
| LineageDependencies.JoinMergesNames | crates/armillary-datafusion/src/column_lineage.rs:223-288 | Over a join of two tables with one column name, each column lists both |
| LineageNonInterference.NonInterference | crates/armillary-datafusion/src/column_lineage.rs:103-220 | Databases with equal row counts that agree on the columns listed for an output column give that column the same content, row for row |
| LineageNonInterference.RowCountFixed | crates/armillary-datafusion/src/column_lineage.rs:191-220 | Without a filter that looks at a column listed as coming from somewhere, the row count depends on table sizes only |
| LineageKinds.DirectMeansCopied | crates/armillary-datafusion/src/column_lineage.rs:66-73 | In a plan that hides nothing computed behind a direct entry (`Clear`), a column listed as direct only holds constants and stored values, never computed ones |
| LineageKinds.MarksDirectIff | crates/armillary-datafusion/src/column_lineage.rs:235-284 | The direct entries of a join come from direct entries of its sides if and only if what its residual filter names besides join keys is direct on both sides |
| LineageKinds.KeepsComputedIff | crates/armillary-datafusion/src/column_lineage.rs:138-188 | A projection records no computed expression as direct, whatever its input, if and only if no direct expression is the last of a computed one's name |
| LineageLimits.ResidualFilterHidesComputed | crates/armillary-datafusion/src/column_lineage.rs:223-288 | A computed column named by a join's residual filter is listed with filter references only, though it holds no stored value |
| LineageLimits.ConstantColumnLeaks | crates/armillary-datafusion/src/column_lineage.rs:138-188 | A constant over a filter lists nothing and still depends on the filtered column |
| LineageLimits.UnionLosesGroupedColumn | crates/armillary-datafusion/src/column_lineage.rs:385-408 | A union directly over a grouped qualified column lists nothing for it |
| LineageLimits.AliasHidesGroupedColumn | crates/armillary-datafusion/src/column_lineage.rs:411-415 | An alias over such a column makes a projection list a column the plan never scans |
| BackfillStore.Store.CreateIterations | crates/armillary-datafusion/src/backfill_store.rs:119-145 | All iterations are stored, each under its index, if and only if their indices are new and distinct; otherwise those before the repeated one; the old rows stay |
| BackfillStore.Store.UpdateIteration | crates/armillary-datafusion/src/backfill_store.rs:237-267 | Status and error are replaced; run id and timestamps are the given ones, or as stored when none is given; other rows and a missing index are left alone |
| BackfillStore.Store.UpdateBackfillStatus | crates/armillary-datafusion/src/backfill_store.rs:218-235 | The status is replaced and the timestamps only overwritten when given |
| BackfillStore.Store.GetProgress | crates/armillary-datafusion/src/backfill_store.rs:269-303 | The grouped counts, in whatever order, accumulate to the number of rows of every status |
| BackfillStore.BucketsSum | crates/armillary-datafusion/src/backfill_store.rs:281-302 | The buckets always sum to the number of iterations |
| BackfillStore.Store.ListIterations | crates/armillary-datafusion/src/backfill_store.rs:198-216 | Every row once, by ascending index |
| BackfillResume.PrepareResume | crates/armillary-datafusion/src/backfill.rs:155-193 | On the store, the plan is what the transition system plans, and exactly the failed rows go back to pending, keeping run id and timestamps |
| BackfillProof.InvStep | crates/armillary-datafusion/src/backfill.rs:268-415 | Every step of launcher, tasks, flags and environment keeps the invariant |
| BackfillProof.InvAlways | crates/armillary-datafusion/src/backfill.rs:268-415 | The invariant holds in every state of every behaviour |
| BackfillTheorems.CompletedIff | crates/armillary-datafusion/src/backfill.rs:402-415 | Completed means all iterations Succeeded if and only if no unfinished iteration shared a finished one's key |
| BackfillTheorems.AbortedMeansFailed | crates/armillary-datafusion/src/backfill.rs:402-415 | A failed backfill was not cancelled and has an iteration that failed in this run |
| BackfillTheorems.FinalStatus | crates/armillary-datafusion/src/backfill.rs:402-419 | Both, and cancelled iff the flag was seen, in every final state of every interleaving |
| BackfillTheorems.BoundedConcurrency | crates/armillary-datafusion/src/backfill.rs:268-395 | At most `concurrency` tasks; permits free, with tasks and with the launcher sum to `concurrency`; no iteration runs twice in one coordinator |
| BackfillTheorems.BoundedOvershoot | crates/armillary-datafusion/src/backfill.rs:272-285 | After a stop condition holds, at most one more iteration is spawned |
| BackfillTheorems.SucceededForever | crates/armillary-datafusion/src/backfill.rs:155-193 | Across starts, stops, crashes and resumptions the iterations stay the same, and one that succeeded keeps its record and is never executed again |
| BackfillRecords.StepWrites | crates/armillary-datafusion/src/backfill.rs:322-395 | Along every behaviour: starting, succeeding and failing write status, run id, error and time of their own row as given, keep its other fields and touch no other row; a reset clears status and error; the backfill's status changes only to in progress and to the outcome |
| BackfillRecords.RunIdRecorded | crates/armillary-datafusion/src/backfill.rs:350-360 | The run id and time of a succeeded record are those of the one success of its iteration, without error |
| BackfillRecords.ErrorRecorded | crates/armillary-datafusion/src/backfill.rs:373-386 | The error and time of a failed record are those of its iteration's last failure |
| BackfillRecords.SucceedsOnce | crates/armillary-datafusion/src/backfill.rs:167-193 | Over all coordinators an iteration succeeds at most once |
| BackfillRecords.InProgressWhileRunning | crates/armillary-datafusion/src/backfill.rs:250-420 | While a coordinator runs its loop the backfill is in progress |
| BackfillTheorems.StepsRunOut | crates/armillary-datafusion/src/backfill.rs:268-415 | Every step of a coordinator and its tasks uses up a bounded amount of work |
| BackfillTheorems.NeverStuck | crates/armillary-datafusion/src/backfill.rs:268-285 | An unfinished coordinator can step if and only if it is not waiting on a semaphore without permits |
| BackfillResume.ShadowedCompletes | crates/armillary-datafusion/src/backfill.rs:167-193 | When every key has a succeeded row, a resume runs nothing, resets failed rows and ends Completed |
| BackfillResume.ShadowedIterationNeverRuns | crates/armillary-datafusion/src/backfill.rs:189-193 | Two iterations under one key: the second stays pending in a Completed backfill |
| BackfillResume.RepeatedKeyLosesIteration | crates/armillary-datafusion/src/backfill.rs:155-193 | From a fresh backfill of two iterations under one key a behaviour with one crash ends Completed with the second as it was created |
| FilterRoundTrip.QuoteUndone | crates/armillary-connectors/src/postgres_source.rs:346-348 | Quote-doubling is undone exactly, for any text and either quote |
| FilterRoundTrip.TranslatableIff | crates/armillary-connectors/src/postgres_source.rs:356-427 | An expression has a text if and only if it is built from columns, untyped nulls, non-null booleans, signed integers and texts, and any operator but an unnamed one |
| FilterRoundTrip.OperatorWords | crates/armillary-connectors/src/postgres_source.rs:358-372 | The word of every operator |
| FilterRoundTrip.TestForms | crates/armillary-connectors/src/postgres_source.rs:377-397 | The texts of NOT and of the tests for null, true and false |
| FilterRoundTrip.BinaryForm | crates/armillary-connectors/src/postgres_source.rs:356-376 | The text of a binary expression, for any named operator |
| FilterRoundTrip.LiteralTexts | crates/armillary-connectors/src/postgres_source.rs:416-427 | The texts of nulls, booleans, integers of any width and both kinds of text |
| FilterRoundTrip.BetweenForm | crates/armillary-connectors/src/postgres_source.rs:398-407 | The text of BETWEEN and NOT BETWEEN |
| FilterRoundTrip.QuotedForm | crates/armillary-connectors/src/postgres_source.rs:346-348 | A quote inside a name or text is doubled and nothing else is touched |
| FilterRoundTrip.RoundTrip | crates/armillary-connectors/src/postgres_source.rs:346-427 | Reading the text gives back the expression up to qualifiers and literal widths, and stops exactly at its end |
| FilterRoundTrip.SameTextIff | crates/armillary-connectors/src/postgres_source.rs:346-427 | Two filters have one text if and only if they differ in qualifiers and widths only |
| Pushdown.ConjunctionRead | crates/armillary-connectors/src/postgres_source.rs:325-331 | The joined filter texts read back as one test that is true exactly where every filter is |
| Pushdown.SupportIff | crates/armillary-connectors/src/postgres_source.rs:117-145 | A filter is reported Inexact if and only if a table is read and the filter has a text |
| Pushdown.AnswerIsPushedFilters | crates/armillary-connectors/src/postgres_source.rs:122-145 | The database returns exactly the rows on which every filter reported Inexact is true: a filter is used if and only if it was reported so |
| Pushdown.PushdownPreserves | crates/armillary-connectors/src/postgres_source.rs:122-145 | Without a limit, applying all filters again to what the database returned equals applying them to the table |
| Pushdown.LimitedAnswerIff | crates/armillary-connectors/src/postgres_source.rs:325-342 | With a limit, filtering the answer again gives the first rows of the filtered table if and only if the limit does not cut the pushed filters' rows, or all it keeps pass every filter, or none it cuts off does |
| Pushdown.LimitPreservedWhenAllPushed | crates/armillary-connectors/src/postgres_source.rs:325-342 | So a limit is harmless when every filter is pushed |
| Pushdown.LimitLosesRows | crates/armillary-connectors/src/postgres_source.rs:325-342 | With a filter the database never sees, the limit can cut off the row the filter keeps |
| Partition.HiveEncode | crates/armillary-connectors/src/file_sink.rs:643-654 | The pushed text decodes to the value and contains neither `/` nor `=` |
| Partition.EncodedSnoc | crates/armillary-connectors/src/file_sink.rs:643-654 | The escape of each character: `%25`, `%2F` and `%3D` for `%`, `/` and `=`, any other as it is |
| Partition.DirectoryNames | crates/armillary-connectors/src/file_sink.rs:480-483 | A directory is named by the column, `=` and the escaped value, and its staging directory by the same after `.staging-` |
| Partition.NamesApart | crates/armillary-connectors/src/file_sink.rs:481-483 | Directories coincide only for equal values, and a staging directory is never a partition directory |
| Partition.PartitionBatches | crates/armillary-connectors/src/file_sink.rs:556-636 | The groups are a function of the input: every row, read at the first batch's column positions, lands once, in batch-then-row order, in the group of its value, one sub-batch for each batch; the error is the first batch's that lacks the column, is too narrow or holds a null |
| Partition.ProjectedPicks | crates/armillary-connectors/src/file_sink.rs:574-576 | The projected positions take one cell out and keep the others, once and in order |
| Partition.FaultMeans | crates/armillary-connectors/src/file_sink.rs:564-606 | What is refused: a first batch without the column, otherwise the first batch that lacks it, is too narrow or holds nulls, with their number; nothing else |
| Partition.GroupedByColumnIff | crates/armillary-connectors/src/file_sink.rs:564-594 | Of all accepted data with some columns, rows are grouped by the partition column of their own batch if and only if every batch that can hold rows has it at the first batch's index |
| Partition.AlwaysRightIff | crates/armillary-connectors/src/file_sink.rs:564-628 | Likewise for any column of the first batch: it is written under its own name if and only if every batch that can hold rows has it at that place |
| Partition.ReadBack | crates/armillary-connectors/src/file_sink.rs:556-636 | Reading all groups in any order returns exactly the rows |
| PartitionSwap.Disk.RemoveDirAll | crates/armillary-connectors/src/file_sink.rs:516-523 | Removal is file by file in any order; a directory of two or more files passes through a half-removed state |
| PartitionSwap.Disk.StageFiles | crates/armillary-connectors/src/file_sink.rs:484-510 | Only the staging directory changes; it ends holding the new file, or gone when the write failed |
| PartitionSwap.Disk.SwapIn | crates/armillary-connectors/src/file_sink.rs:512-529 | At every write the new content is complete, staged or in place |
| PartitionSwap.Disk.ReplacePartition | crates/armillary-connectors/src/file_sink.rs:480-529 | Every intermediate disk is crash-safe and nothing but the two directories changes; a failed write leaves the old partition as it was |
| PartitionOverwrite.WriteGroups | crates/armillary-connectors/src/file_sink.rs:479-533 | Over all partitions: every prefix of the writes is crash-safe, the end state replaces exactly the partitions of the input, failures included |
| PartitionOverwrite.InsertOverwrite | crates/armillary-connectors/src/file_sink.rs:377-548 | The whole operation: refused data, a plain file at the root and empty input change nothing; otherwise as above, the rows reported are the input rows, and at no recorded write is neither the old nor the new content of a partition whole |
| PartitionOverwrite.WhollyOldOrNewIff | crates/armillary-connectors/src/file_sink.rs:512-529 | Partitions are wholly old, gone or wholly new at every crash point if and only if no replaced directory held two or more files, provided no directory of exactly two files already holds the new data file |
| PartitionOverwrite.RerunConverges | crates/armillary-connectors/src/file_sink.rs:484-529 | Writing the same batches again from any crash point reaches the state of the uninterrupted write |
| PartitionOverwrite.DatasetRoundTrip | crates/armillary-connectors/src/file_sink.rs:377-548 | Writing into an empty root, reading every directory back and putting the decoded value back in its place gives the cells of the input rows, each once: nothing of a row is lost, repeated or moved |
| PartitionOverwrite.DatasetByName | crates/armillary-connectors/src/file_sink.rs:377-548 | These are the input rows by column name when every batch that can hold rows starts with the first batch's columns, all named apart |
| PostgresWrite.Target.DeleteMatching | crates/armillary-connectors/src/postgres_sink.rs:446-468 | The pre-pass deletes the rows of every incoming key and counts them as they go |
| PostgresWrite.Target.InsertRow | crates/armillary-connectors/src/postgres_sink.rs:713-770 | One INSERT with or without conflict handling: what it stores, whether it fails, and which row it returns |
| PostgresWrite.Target.InsertRows | crates/armillary-connectors/src/postgres_sink.rs:474-542 | The batch, chunk and row loops insert every row in order until the first failure, and count insertions and updates |
| PostgresWrite.Target.Write | crates/armillary-connectors/src/postgres_sink.rs:426-604 | All four strategies: the table and the receipt on commit, the untouched table on failure |
| PostgresOutcome.AppendCommitsIff | crates/armillary-connectors/src/postgres_sink.rs:474-542 | An append commits if and only if there is no constraint, or no null-free key comes in twice or is stored |
| PostgresOutcome.AppendLeaves | crates/armillary-connectors/src/postgres_sink.rs:426-604 | It leaves the table and after it one row per incoming row, in order, with nulls in the extra columns |
| PostgresOutcome.TruncateInsertLeaves | crates/armillary-connectors/src/postgres_sink.rs:426-604 | A truncate-insert leaves those rows only |
| PostgresOutcome.DeleteInsertLeaves | crates/armillary-connectors/src/postgres_sink.rs:426-604 | A delete-insert leaves them after the rows whose key does not come in |
| PostgresOutcome.UpsertLeaves | crates/armillary-connectors/src/postgres_sink.rs:734-767 | On a target with the unique constraint an upsert leaves one row per null-free key stored or incoming, with the last incoming values, or those stored, and its extra columns kept; rows with nulls in the key stay and all incoming ones are added |
| PostgresOutcome.ReceiptBalance | crates/armillary-connectors/src/postgres_sink.rs:578-602 | In every mode the table grows by the rows called inserted less those called deleted; what each mode calls inserted, updated and deleted |
| PostgresOutcome.FailureMeans | crates/armillary-connectors/src/postgres_sink.rs:474-542 | A failed write leaves the table; an upsert fails only for want of the constraint, the others only on a duplicate key under it |
| PostgresReplay.UpsertIsDeleteInsertIff | crates/armillary-connectors/src/postgres_sink.rs:426-604 | Both transactions leave the same rows if and only if: without the unique constraint, the incoming rows are those stored under their keys; with it and distinct keys, no replaced row has a value in an extra column; with it and a repeated key, the batch already stands in the table |
| PostgresReplay.UpsertStandsIff | crates/armillary-connectors/src/postgres_sink.rs:734-767 | An upsert leaves the rows as they are if and only if the target lacks the constraint it needs, or every incoming key is stored with the values of its last incoming row |
| PostgresWriteLaws.LoopsAgreeIff | crates/armillary-connectors/src/postgres_sink.rs:446-542 | The row loops alone, commit aside, agree on a target with unique keys if and only if no key repeats and no replaced row has a value in an extra column |
| PostgresWriteLaws.UpdatesMatchDeletes | crates/armillary-connectors/src/postgres_sink.rs:490-505 | Upsert finds at least as many conflicts as delete-insert deletes rows, and as many if and only if no key repeats |
| PostgresWriteLaws.DeleteInsertCommitsIff | crates/armillary-connectors/src/postgres_sink.rs:446-542 | Delete-insert under a unique constraint commits if and only if no key repeats |
| PostgresWriteLaws.UpsertCommitsIff | crates/armillary-connectors/src/postgres_sink.rs:734-767 | An upsert commits if and only if the target has the unique constraint or nothing comes in |
| PostgresWriteLaws.ReceiptsAgree | crates/armillary-connectors/src/postgres_sink.rs:578-602 | Under a unique constraint the upsert's inserted and updated add up to the rows when there are non-key columns (otherwise conflicts take the place of updates); when both commit, rows updated equal rows deleted if there are non-key columns, and the tables agree if no replaced row has a value in an extra column |
| PostgresReplay.UpsertReplayIff | docs/incremental-materializations.md:77-77 | Writing the same rows once more changes nothing if and only if no incoming key holds a null or the target lacks the constraint an upsert needs |
| PostgresReplay.DeleteInsertReplayIff | docs/incremental-materializations.md:77-77 | The same if and only if no incoming key holds a null, or a repeated key makes it fail under the unique constraint |
| PostgresReplay.AppendReplayIff | docs/incremental-materializations.md:77-77 | The same if and only if nothing comes in, or the unique constraint meets an incoming key without nulls |
| PostgresReplay.TruncateInsertReplay | docs/incremental-materializations.md:77-77 | The same always; it commits if and only if no key repeats under the unique constraint, and then leaves exactly the incoming rows |

## Left out

- Arrow arrays, Parquet encoding and compression, schema projection and the nanosecond-to-microsecond truncation of timestamps: cells are plain values.
- Schema and configuration errors (missing columns, unsupported types, `validate_snapshot_runtime`), schema evolution and DDL: each is a check before the modelled code starts.
- Null snapshot keys: the Parquet sink encodes a null as the text `"\0NULL"` and goes on (parquet_snapshot.rs:451-458), so there such keys are texts like any other and the Parquet results include them; in Postgres a null key never equals anything in SQL, and the Postgres results are for keys without nulls.
- `"*"` in `check_columns`: only Postgres expands it, so the refinement takes the tracked columns as given.
- The temporary file and rename of the Parquet snapshot writer, and file-level crashes there.
- ParquetSnapshot.SplitCurrent: `is_current` is never null here, while the code counts a null as historical.
- SQL text other than filters, the database driver, and the cloud branch of partition overwrite, which has no atomic step to reason about.
- LineageWalker.WalkPlan: upstream lists are sets, so their order and repetitions and the display text of expressions are not modelled; nor are plan nodes the walker does not know, subqueries and `DISTINCT ON`.
- LineageNonInterference.NonInterference: joins, aggregates, windows, distinct, sort and limit are outside the fragment, because the walker does not record keys that only match, group, choose or order rows.
- LineageKinds.DirectMeansCopied: the kinds that label computed columns (derived, cast, aggregate, window) have no semantic claim beyond not being direct.
- Backfill.Do: weak memory ordering, panicking tasks, failing store writes, progress events and a Cancelled status written by another process.
- BackfillStore.Store.CreateIterations: one backfill's rows only; the store's other tables and `delete_backfill` are not modelled.
- FilterRoundTrip.RoundTrip: float, date and timestamp literals, whose text the standard library and chrono format, are not among the scalars.
- Pushdown.PushdownPreserves: comparison, pattern matching and untranslatable functions are the same arbitrary functions on both sides; collations and numeric casts are not compared.
- Partition.PartitionBatches: columns have no types, so a sub-batch refused because a later batch's types differ from the first's, or because there is no column but the partition column, is not modelled; a column index out of range, a panic of the original, is the fault OutOfBounds.
- PartitionOverwrite.InsertOverwrite: a partition value is its formatted text, creating the root directory always succeeds, and failures other than writing the Parquet file are not modelled.
- PostgresWrite.Target.Write: byte counts, index creation after the commit and constraints other than the unique key.
- Fingerprints, the registry, edge joins of lineage graphs and the command line: plumbing next to the above.

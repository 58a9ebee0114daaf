# grants-api core, modelled in Dafny

This project models three parts of the grants-api repository.

- **Legacy-to-staging change capture.** Every legacy (Oracle) table is
  copied into its staging table. Each copy runs three statements in order:
  - an update of rows whose source `last_upd_date` is newer, which resets
    `transformed_at`;
  - an insert of rows whose primary key is new;
  - a soft delete (`is_deleted`, `deleted_at`) of live rows whose key
    vanished from the source.

  The update and the insert are executed in chunks of `insert_chunk_size`
  keys. Counters and chunk sizes are kept in a metrics map. Each table has
  its own transaction, which rolls back on error while the loop goes on.
  The tables are maps from primary key to row. The SQL builders are
  functions on those maps. `LoadOracleDataTask` is a class whose methods
  change the staging tables and the metrics.
- **The opportunity models.**
  - The pure getters of `Opportunity`.
  - `OpportunitySummary.can_summary_be_public`.
  - The unique constraints with `nulls_not_distinct`.
  - The one-to-one current-child pointer.
  - `Parent.new_version`, which moves that pointer to the new version.
- **The analytics ETL sync of deliverables, sprints and quads.**
  - Each dimension table is a sequence of rows in scan order. That order
    gives "the first row `fetchone()` reads" a meaning.
  - The shared SQL effects are modelled once, in `EtlDimension`: insert on
    conflict do nothing, select by ghid, and update by id.
  - Each model is a class whose methods change its tables.
  - Every method is proved equal to an intended sync specification.
    Properties of that specification are proved as lemmas: INSERT, then
    NONE on a repeat; UPDATE exactly when a compared value differs; the
    returned id is the entity's own row.
  - The quad model has two defects. They are modelled both as written and
    as intended (see Findings).

Modules:
- `Wrappers`: Option and Result.
- `StagingSql`: the statement builders.
- `LoadOracleData`: the load task.
- `OpportunityModels`: the opportunity models.
- `EtlDimension`: the shared dimension-table effects.
- `DeliverableModel`, `SprintModel` and `QuadModel`: the three ETL models.

## Model

| member | source | states |
|---|---|---|
| StagingSql.InsertColumns | api/src/data_migration/load/sql.py:13-25 | The insert's target columns are the source columns in order, followed by `is_deleted`. |
| StagingSql.InsertSelectRows | api/src/data_migration/load/sql.py:16-22 | The select of new rows returns exactly the keys of the chunk that are in the source and absent from staging. |
| StagingSql.ApplyInsert | api/src/data_migration/load/sql.py:24-26 | Executing the builder's insert adds exactly the new keys of the chunk to the staging keys. |
| StagingSql.BuildInsertSelect | api/src/data_migration/load/sql.py:8-28 | The select holds exactly the source rows whose key is absent from staging, restricted to the chunk. The insert adds exactly those rows and changes nothing else. |
| StagingSql.InsertSelectCopiesAbsentRows | api/src/data_migration/load/sql.py:15-26 | A key is added only when it is in the chunk, in the source and absent from staging. It then holds the source columns, `is_deleted = FALSE` and NULL bookkeeping columns. Every other staging row is unchanged. |
| StagingSql.UpdateOverwritesMatchedRows | api/src/data_migration/load/sql.py:31-46 | A row changes exactly when its key is in both tables and in the chunk, and its staging `last_upd_date` is strictly older. It then takes every source column and keeps `is_deleted` and `deleted_at`. `transformed_at` is reset when asked. |
| StagingSql.ApplyUpdate | api/src/data_migration/load/sql.py:31-46 | The update keeps the set of staging keys: it neither adds nor removes rows. Which rows it rewrites is stated in UpdateOverwritesMatchedRows. |
| StagingSql.UpdateNeedsStrictlyOlderWatermark | api/src/data_migration/load/sql.py:44 | An equal or NULL watermark leaves the row unchanged, whatever its other columns hold. |
| StagingSql.UpdateKeepsTombstones | api/src/data_migration/load/sql.py:37-39 | The update never sets `is_deleted`, so a tombstoned row stays tombstoned. |
| StagingSql.NewAndUpdatedKeysDisjoint | api/src/data_migration/load/sql.py:16-44 | No key is both new for the insert and matched by the update. |
| StagingSql.MarkDeletedFlagsVanishedRows | api/src/data_migration/load/sql.py:49-68 | Exactly the live staging rows whose key is absent from the source become deleted, with `deleted_at` stamped and `transformed_at` reset. Every other row is unchanged. |
| StagingSql.ApplyMarkDeleted | api/src/data_migration/load/sql.py:49-68 | Mark-deleted keeps the set of staging keys: it is a soft delete. Which rows it flags is stated in MarkDeletedFlagsVanishedRows. |
| StagingSql.MarkDeletedIdempotent | api/src/data_migration/load/sql.py:59-67 | A second mark-deleted against the same source flags nothing and changes nothing. |
| StagingSql.NothingToMarkIsNoChange | api/src/data_migration/load/sql.py:59-67 | When no live row has vanished, mark-deleted leaves the table as it is. |
| StagingSql.MarkDeletedFlipsExactlyDeletedKeys | api/src/data_migration/load/load_oracle_data_task.py:174-176 | The row count is the number of rows flipped from live to deleted. |
| StagingSql.InsertChunksCompose | api/src/data_migration/load/load_oracle_data_task.py:102-108 | Inserting chunk a and then chunk b equals inserting a ∪ b. |
| StagingSql.UpdateChunksCompose | api/src/data_migration/load/load_oracle_data_task.py:137-142 | Updating chunk a and then chunk b equals updating a ∪ b. |
| LoadOracleData.Sizes | api/src/data_migration/load/load_oracle_data_task.py:110 | The list of chunk lengths has one entry per chunk. |
| LoadOracleData.Chunks | api/src/data_migration/load/load_oracle_data_task.py:102 | `itertools.batched`: consecutive chunks of n keys, only the last shorter. Its properties are ChunksFlattenToInput, ChunksAreBounded and ChunkSizesOfChunks. |
| LoadOracleData.ChunksFlattenToInput | api/src/data_migration/load/load_oracle_data_task.py:102 | The chunks of `batched`, concatenated, give the input back. |
| LoadOracleData.ChunksAreBounded | api/src/data_migration/load/load_oracle_data_task.py:102 | Every chunk is non-empty and at most the chunk size. Every chunk but the last has exactly that size. |
| LoadOracleData.ChunkSizesOfChunks | api/src/data_migration/load/load_oracle_data_task.py:110 | The sizes of the chunks of a list equal the chunk sizes computed from its length alone. |
| LoadOracleData.ChunkSizesSumToLength | api/src/data_migration/load/load_oracle_data_task.py:117 | The chunk sizes sum to the number of selected keys. |
| LoadOracleData.ChunksStep | api/src/data_migration/load/load_oracle_data_task.py:102 | The remaining chunks are the next chunk followed by the chunks after it. |
| LoadOracleData.SumAppend | api/src/data_migration/load/load_oracle_data_task.py:117 | Appending a count to the list adds it to the sum. |
| LoadOracleData.SizesAppend | api/src/data_migration/load/load_oracle_data_task.py:110 | Appending a chunk appends its length to the sizes. |
| LoadOracleData.DistinctLength | api/src/data_migration/load/load_oracle_data_task.py:98 | A duplicate-free list of keys is as long as its set of keys. |
| LoadOracleData.ElementsSplit | api/src/data_migration/load/load_oracle_data_task.py:102 | The keys of a slice split at any point are the union of the keys of the two parts. |
| LoadOracleData.OverwriteTwice | api/src/data_migration/load/load_oracle_data_task.py:88-90 | Two successive writes of one table leave only the second. |
| LoadOracleData.ChunkLoopStep | api/src/data_migration/load/load_oracle_data_task.py:102-110 | After one more chunk, the executed chunks followed by the remaining ones are still all the chunks. The recorded counts are their sizes and sum to the new position. |
| LoadOracleData.ChunkLoopDone | api/src/data_migration/load/load_oracle_data_task.py:102-117 | When the loop ends, the executed chunks are all the chunks of the keys and flatten to them. The counts are the chunk sizes and sum to the number of keys. |
| LoadOracleData.EnumerateStep | api/src/data_migration/load/load_oracle_data_task.py:98 | Moving one key from the rest to the listed keys keeps an enumeration. |
| LoadOracleData.EnumerateKeys | api/src/data_migration/load/load_oracle_data_task.py:97-98 | `.all()` lists every selected key exactly once, in some order. |
| LoadOracleData.IncrementTouchesOnlyItsCounter | api/src/data_migration/load/load_oracle_data_task.py:118-119 | `increment` adds to its own counter (0 when unset) and leaves every other metric alone. |
| LoadOracleData.PrefixedNamesDiffer | api/src/data_migration/load/load_oracle_data_task.py:118-122 | The total counter, the per-table counter and the chunk list of one table have distinct names, for a table not named "total". |
| LoadOracleData.InsertMetrics | api/src/data_migration/load/load_oracle_data_task.py:117-125 | The metrics `do_insert` records: both insert counters incremented by the total, and the chunk-size list set. Stated in InsertCountersGrowByTotal. |
| LoadOracleData.UpdateMetrics | api/src/data_migration/load/load_oracle_data_task.py:151-159 | The metrics `do_update` records, in the same shape. Stated in UpdateCountersGrowByTotal. |
| LoadOracleData.DeleteMetrics | api/src/data_migration/load/load_oracle_data_task.py:178-179 | The metrics `do_mark_deleted` records: the total counter incremented, the per-table counter set to the row count. |
| LoadOracleData.UpdatePass | api/src/data_migration/load/load_oracle_data_task.py:129-142 | The staging rows after `do_update`: every updatable key updated, with `transformed_at` reset. Stated in PassResetsUpdatedRows. |
| LoadOracleData.InsertPass | api/src/data_migration/load/load_oracle_data_task.py:94-108 | The staging rows after `do_insert`: every new key inserted. Stated in PassStagesEverySourceRow. |
| LoadOracleData.DeletePass | api/src/data_migration/load/load_oracle_data_task.py:163-174 | The staging rows after `do_mark_deleted`, stamped with now. Stated in PassTombstonesVanishedRows. |
| LoadOracleData.TablePass | api/src/data_migration/load/load_oracle_data_task.py:88-90 | Update, then insert, then mark-deleted. Its properties are the Pass lemmas and SecondPassIsQuiet. |
| LoadOracleData.TableResult | api/src/data_migration/load/load_oracle_data_task.py:80-92 | The three counts of a table, or the step that raised: a chunk size below 1 raises at the update step. Stated in PassCountsAreKeySetSizes. |
| LoadOracleData.TableMetrics | api/src/data_migration/load/load_oracle_data_task.py:80-92 | The metrics after a table's attempt: the completed steps keep their counts. |
| LoadOracleData.TableAttempt | api/src/data_migration/load/load_oracle_data_task.py:80-92 | The staging rows when `load_data_for_table` returns or raises, before any rollback. |
| LoadOracleData.TableAfterRun | api/src/data_migration/load/load_oracle_data_task.py:74-78 | The staging rows after the table's transaction: the pass on commit, the old rows on rollback. Stated in AttemptThenRollback. |
| LoadOracleData.RunStaging | api/src/data_migration/load/load_oracle_data_task.py:71-78 | The staging tables after the loop over the tables. Stated in RunStep and RunStagingPointwise. |
| LoadOracleData.RunMetrics | api/src/data_migration/load/load_oracle_data_task.py:71-78 | The metrics after the loop over the tables. Stated in RunStep. |
| LoadOracleData.FailedTables | api/src/data_migration/load/load_oracle_data_task.py:77-78 | The tables logged with "table load error", in order. Stated in RunStep. |
| LoadOracleData.InsertCountersGrowByTotal | api/src/data_migration/load/load_oracle_data_task.py:117-125 | `count.insert.total` and `count.insert.<table>` both grow by the insert total. |
| LoadOracleData.UpdateCountersGrowByTotal | api/src/data_migration/load/load_oracle_data_task.py:151-159 | `count.update.total` and `count.update.<table>` both grow by the update total. |
| LoadOracleData.PassStagesEverySourceRow | api/src/data_migration/load/load_oracle_data_task.py:88-90 | After a table's pass every source key has a staging row. A key new to staging holds the source row, live. |
| LoadOracleData.PassTombstonesVanishedRows | api/src/data_migration/load/load_oracle_data_task.py:163-171 | After a pass, every staging row whose key is absent from the source is deleted. A row that was live is stamped with now and reset for transform, and keeps its values. |
| LoadOracleData.PassResetsUpdatedRows | api/src/data_migration/load/load_oracle_data_task.py:129-140 | Every row the update rewrote holds the source columns and has `transformed_at` NULL. |
| LoadOracleData.PassCountsAreKeySetSizes | api/src/data_migration/load/load_oracle_data_task.py:80-92 | A successful pass reports the sizes of the updated, new and vanished key sets of the state before it. |
| LoadOracleData.PassLeavesNothingToDo | api/src/data_migration/load/load_oracle_data_task.py:88-90 | After a pass there are no new, updatable or vanished keys left. |
| LoadOracleData.QuietPassChangesNothing | api/src/data_migration/load/load_oracle_data_task.py:88-90 | A pass with nothing to do leaves the staging table as it is. |
| LoadOracleData.SecondPassIsQuiet | api/src/data_migration/load/load_oracle_data_task.py:80-92 | A second pass with an unchanged source reports zero counts and changes nothing. |
| LoadOracleData.ReappearingKeyStaysTombstoned | api/src/data_migration/load/load_oracle_data_task.py:88-90 | A tombstoned key that reappears in the source stays deleted after the pass. |
| LoadOracleData.ExecuteChunkStep | api/src/data_migration/load/load_oracle_data_task.py:102-108 | Executing one more chunk extends the staging state to the next slice of keys. |
| LoadOracleData.ExecuteNoKeys | api/src/data_migration/load/load_oracle_data_task.py:102 | A statement over no keys changes nothing. |
| LoadOracleData.ExecuteInBatches | api/src/data_migration/load/load_oracle_data_task.py:102-110 | The chunk loop executes `Chunks(keys, n)` in order, records their sizes, and ends in the state of one statement over all the keys. |
| LoadOracleData.RunStep | api/src/data_migration/load/load_oracle_data_task.py:73-78 | The run's metrics and failures over `names[..i+1]` extend those over `names[..i]` by table i. |
| LoadOracleData.RunStagingPointwise | api/src/data_migration/load/load_oracle_data_task.py:73-78 | Each table's final rows depend only on its own attempt. Tables not yet reached keep their rows. |
| LoadOracleData.LoadDataStep | api/src/data_migration/load/load_oracle_data_task.py:73-78 | One loop iteration moves the run state from `names[..i]` to `names[..i+1]`. |
| LoadOracleData.AttemptThenRollback | api/src/data_migration/load/load_oracle_data_task.py:74-78 | A commit keeps the attempt's rows; a rollback restores the rows from before. |
| LoadOracleData.WriteBack | api/src/data_migration/load/load_oracle_data_task.py:74-78 | Writing a table back with its own rows changes nothing. |
| LoadOracleData.LoadOracleDataTask.constructor | api/src/data_migration/load/load_oracle_data_task.py:35-38 | Stores the tables and the chunk size, with empty metrics. |
| LoadOracleData.LoadOracleDataTask.Create | api/src/data_migration/load/load_oracle_data_task.py:25-38 | Fails with the key-mismatch message exactly when the two dictionaries' key sets differ. Otherwise returns a fresh task holding the inputs. |
| LoadOracleData.LoadOracleDataTask.DoUpdate | api/src/data_migration/load/load_oracle_data_task.py:129-161 | The table becomes `UpdatePass`. The total is the number of updatable keys. The metrics gain both counters and the chunk sizes. The executed batches are the chunks of an enumeration of the updatable keys. |
| LoadOracleData.LoadOracleDataTask.DoInsert | api/src/data_migration/load/load_oracle_data_task.py:94-127 | The table becomes `InsertPass`. The total is the number of new keys. The metrics gain both counters and the chunk sizes. The batches are the chunks of an enumeration of the new keys. |
| LoadOracleData.LoadOracleDataTask.DoMarkDeleted | api/src/data_migration/load/load_oracle_data_task.py:163-182 | The table becomes `DeletePass` stamped with now. The count is the number of vanished live keys. The total counter is incremented, and the per-table counter is set. |
| LoadOracleData.LoadOracleDataTask.LoadDataForTable | api/src/data_migration/load/load_oracle_data_task.py:80-92 | Update, insert and mark-deleted run in order. On the injected error, a chunk size below 1 included, it stops at that step with the earlier steps' rows and metrics in place. |
| LoadOracleData.LoadOracleDataTask.LoadTableInTransaction | api/src/data_migration/load/load_oracle_data_task.py:74-78 | Success means the full pass is committed. On failure the rows are rolled back, but the metrics of the completed steps stay. |
| LoadOracleData.LoadOracleDataTask.LoadData | api/src/data_migration/load/load_oracle_data_task.py:71-78 | Every table is attempted in dictionary order. The final rows, the count metrics and the list of logged failures equal the run specification. The `time.*` and `count.before.*`/`count.after.*` metrics are not part of the model. |
| OpportunityModels.CanSummaryBePublicExactly | api/src/db/models/opportunity_models.py:277-287 | A summary is public iff it is not deleted and its post date is set and not after the current date. |
| OpportunityModels.CanSummaryBePublic | api/src/db/models/opportunity_models.py:277-287 | `can_summary_be_public`. Its meaning is stated in CanSummaryBePublicExactly, PublicStaysPublic and NeverPublic. |
| OpportunityModels.PublicStaysPublic | api/src/db/models/opportunity_models.py:284 | A summary that is public on one day is public on every later day. |
| OpportunityModels.NeverPublic | api/src/db/models/opportunity_models.py:281-285 | A deleted summary, or one without a post date, is never public. |
| OpportunityModels.SummariesWhere | api/src/db/models/opportunity_models.py:138 | The filter is no longer than its input and keeps only members of it with the wanted `is_forecast`. |
| OpportunityModels.AllForecasts | api/src/db/models/opportunity_models.py:134-138 | `all_forecasts`: the forecast summaries, in order. Stated in AllForecastsAndNonForecastsPartition. |
| OpportunityModels.AllNonForecasts | api/src/db/models/opportunity_models.py:140-144 | `all_non_forecasts`: the non-forecast summaries, in order. Stated in AllForecastsAndNonForecastsPartition. |
| OpportunityModels.SummariesWhereAppend | api/src/db/models/opportunity_models.py:138 | Filtering distributes over concatenation, so order is kept. |
| OpportunityModels.SummariesWhereMembership | api/src/db/models/opportunity_models.py:138-144 | A summary is kept iff it is in the list and has the wanted flag. |
| OpportunityModels.ForecastsPartitionSummaries | api/src/db/models/opportunity_models.py:135-144 | Forecasts and non-forecasts split the list: their lengths add up and their multisets add up. |
| OpportunityModels.AllForecastsAndNonForecastsPartition | api/src/db/models/opportunity_models.py:135-144 | `all_forecasts` and `all_non_forecasts` partition `all_opportunity_summaries`. |
| OpportunityModels.Summary | api/src/db/models/opportunity_models.py:115-125 | None iff there is no current pointer, else the pointer's summary. |
| OpportunityModels.OpportunityStatus | api/src/db/models/opportunity_models.py:127-132 | None iff there is no current pointer, else the pointer's status. |
| OpportunityModels.SummaryAndStatusTogether | api/src/db/models/opportunity_models.py:115-132 | The summary and the status are both set, or neither is. |
| OpportunityModels.AgencyName | api/src/db/models/opportunity_models.py:106-112 | None iff there is no agency record, else its name. |
| OpportunityModels.TopLevelAgencyName | api/src/db/models/opportunity_models.py:99-104 | Set iff the record and its top-level agency both exist. It is then the top-level agency's name. |
| OpportunityModels.TopLevelNameNeedsAgencyName | api/src/db/models/opportunity_models.py:99-112 | A top-level agency name is only reported alongside an agency name. |
| OpportunityModels.AtMostOneUnrevisedSummary | api/src/db/models/opportunity_models.py:150-154 | Under `nulls_not_distinct`, two summaries of one opportunity with the same flag and no revision number are the same row. |
| OpportunityModels.DefaultNullsAllowDuplicateSummaries | api/src/db/models/opportunity_models.py:153 | With default NULL semantics two such summaries would be accepted. |
| OpportunityModels.AtMostOneOpenParent | api/src/db/models/opportunity_models.py:468-472 | An opportunity has at most one open (`end IS NULL`) parent version. |
| OpportunityModels.ChildParent | api/src/db/models/opportunity_models.py:547 | A child's `parent` relationship finds the open parent version of its opportunity, if there is one. |
| OpportunityModels.AtMostOneOpenChild | api/src/db/models/opportunity_models.py:529-533 | There is at most one open child per opportunity and forecast flag. |
| OpportunityModels.DefaultNullsAllowTwoOpenParents | api/src/db/models/opportunity_models.py:471 | With default NULL semantics two open parent versions would be accepted. |
| OpportunityModels.CurrentChildOf | api/src/db/models/opportunity_models.py:497-500 | Under one pointer per parent: the parent's pointer row if it has one, else None. |
| OpportunityModels.MovedPointers | api/src/db/models/opportunity_models.py:508-511 | The pointer table after the prior row is deleted and a row for the new version, with the same child and status, is added. Stated in MovedPointerIsTheOnlyOne. |
| OpportunityModels.PointersAfterNewVersion | api/src/db/models/opportunity_models.py:502-511 | The pointer table `new_version` leaves: moved when there is a current child, otherwise unchanged. Stated in NewVersionMovesThePointer and NewVersionKeepsOtherPointers. |
| OpportunityModels.MovedPointerIsTheOnlyOne | api/src/db/models/opportunity_models.py:508-511 | After the move the new version has exactly one pointer row, to the same child with the same status. The old row is gone and every other row is kept. |
| OpportunityModels.OpportunityVersions.constructor | api/src/db/models/opportunity_models.py:465-500 | Holds the given versions and pointer rows. |
| OpportunityModels.OpportunityVersions.NewVersion | api/src/db/models/opportunity_models.py:502-511 | If the parent had a current child: its pointer row is deleted, and a row for the new version with the same child and status is added. Otherwise the pointers are unchanged. The versioned rows come from the version step. |
| OpportunityModels.NewVersionMovesThePointer | api/src/db/models/opportunity_models.py:502-511 | After `new_version` the new version's current child is the old one's. The old parent has none, and the one-pointer invariant holds. |
| OpportunityModels.NewVersionKeepsOtherPointers | api/src/db/models/opportunity_models.py:502-511 | `new_version` keeps the one-pointer invariant and leaves every other parent's current child as it was. With no current child the pointer table is unchanged, and the new version has no current child either. |
| EtlDimension.Lookup | analytics/src/analytics/integrations/etldb/sprint_model.py:117-126 | None iff no row has the ghid. Otherwise it is the position of the first row with the ghid. |
| EtlDimension.LookupFindsTheOnlyRow | analytics/src/analytics/integrations/etldb/deliverable_model.py:112-115 | In a valid table, the row with the ghid is the one the select reads. |
| EtlDimension.InsertOnConflictDoNothing | analytics/src/analytics/integrations/etldb/deliverable_model.py:49-57 | `insert ... on conflict(ghid) do nothing returning id`. Stated in InsertOnConflictAddsOnlyNewGhids. |
| EtlDimension.InsertOnConflictAddsOnlyNewGhids | analytics/src/analytics/integrations/etldb/deliverable_model.py:49-57 | An id is returned iff the ghid is new. A new ghid is appended with the next serial id; a known ghid leaves the table alone. The table stays valid. |
| EtlDimension.UpdateWhereId | analytics/src/analytics/integrations/etldb/deliverable_model.py:121-130 | The update keeps the number of rows. |
| EtlDimension.UpdateWhereIdRewritesOneRow | analytics/src/analytics/integrations/etldb/deliverable_model.py:121-130 | In a valid table, the update by id rewrites exactly that row in place and stamps `t_modified`. |
| EtlDimension.SyncDimension | analytics/src/analytics/integrations/etldb/deliverable_model.py:13-34 | The intended dimension sync: insert, else select and compare, then update. Stated in SyncStoresThePayload and SyncTwiceIsQuiet. |
| EtlDimension.SyncStoresThePayload | analytics/src/analytics/integrations/etldb/deliverable_model.py:13-34 | After a sync the ghid's row holds the payload under the returned id. INSERT iff the ghid was new; NONE iff its stored values were equal, with the table unchanged. Other rows are kept and the table stays valid. |
| EtlDimension.SyncTwiceIsQuiet | analytics/src/analytics/integrations/etldb/deliverable_model.py:13-34 | Repeating a sync reports NONE with the same id and table. |
| EtlDimension.SyncNewGhidInsertsThenIsQuiet | analytics/src/analytics/integrations/etldb/deliverable_model.py:21-28 | A new ghid gives INSERT with the next id, then NONE with the same id. |
| DeliverableModel.UpsertFactOverwritesQuad | analytics/src/analytics/integrations/etldb/deliverable_model.py:79-84 | After the upsert, the key's row holds the new quad id under the returned id. A known key keeps its id and is stamped; a new key takes the next id. Other rows are untouched. |
| DeliverableModel.UpsertFactTwiceKeepsOneRow | analytics/src/analytics/integrations/etldb/deliverable_model.py:79-84 | Two upserts for the same deliverable and day leave one row, with the same id and the second quad id. |
| DeliverableModel.UpsertFact | analytics/src/analytics/integrations/etldb/deliverable_model.py:79-84 | `insert ... on conflict(deliverable_id, d_effective) do update ... returning id`. Stated in UpsertFactOverwritesQuad. |
| DeliverableModel.SyncDeliverableSpec | analytics/src/analytics/integrations/etldb/deliverable_model.py:13-34 | The intended deliverable sync: the dimension sync, then the fact upsert, or a missing QUAD map. Stated in SyncDeliverableTwice. |
| DeliverableModel.SyncDeliverableTwice | analytics/src/analytics/integrations/etldb/deliverable_model.py:13-34 | With a QUAD map, the first sync stores the deliverable's fact row for the effective date with the mapped quad id. A repeat reports NONE with the same dimension state, the same fact keys and the same fact id. |
| DeliverableModel.EtlDeliverableModel.InsertDimensions | analytics/src/analytics/integrations/etldb/deliverable_model.py:36-62 | Insert on conflict do nothing. The id is returned iff the ghid was new. |
| DeliverableModel.EtlDeliverableModel.UpdateDimensions | analytics/src/analytics/integrations/etldb/deliverable_model.py:95-133 | A ghid with no row raises when `fetchone()` is unpacked. Otherwise returns the intended sync's id and change, and writes its table. |
| DeliverableModel.EtlDeliverableModel.InsertFacts | analytics/src/analytics/integrations/etldb/deliverable_model.py:64-93 | Without a QUAD map it raises before writing. Otherwise it upserts the `(deliverable, effective date)` row with the quad id. |
| DeliverableModel.EtlDeliverableModel.SyncDeliverable | analytics/src/analytics/integrations/etldb/deliverable_model.py:13-34 | The dimension ends as the intended sync. The fact table ends as the upsert, or unchanged when the missing QUAD map raises after the dimension write. |
| SprintModel.NewValues | analytics/src/analytics/integrations/etldb/sprint_model.py:70-76 | Raises iff there is no QUAD map. Otherwise returns the payload's values with the mapped quad id, or None for an unmapped quad. |
| SprintModel.SelectSprint | analytics/src/analytics/integrations/etldb/sprint_model.py:107-128 | All Nones when no row matches. Otherwise the row's id, and an old-values tuple equal to a new-values tuple iff the stored values are equal. |
| SprintModel.SyncSprintSpec | analytics/src/analytics/integrations/etldb/sprint_model.py:13-30 | The intended sprint sync: a missing QUAD map raises first, otherwise the dimension sync. Stated in SyncSprintTracksQuad. |
| SprintModel.SyncSprintTracksQuad | analytics/src/analytics/integrations/etldb/sprint_model.py:13-30 | A sync stores the sprint and its quad id under the returned id, and a repeat is quiet. A changed quad mapping alone makes the next sync an UPDATE. |
| SprintModel.EtlSprintModel.Select | analytics/src/analytics/integrations/etldb/sprint_model.py:107-128 | Reads the table without changing it and returns `SelectSprint`. |
| SprintModel.EtlSprintModel.InsertDimensions | analytics/src/analytics/integrations/etldb/sprint_model.py:32-59 | Without a QUAD map it raises before writing. Otherwise it is insert on conflict do nothing, returning an id iff the ghid was new. |
| SprintModel.EtlSprintModel.UpdateDimensions | analytics/src/analytics/integrations/etldb/sprint_model.py:61-105 | Without a QUAD map it raises. No row gives `(None, NONE)` without a write. Otherwise returns the intended sync's id and change, and writes its table. |
| SprintModel.EtlSprintModel.SyncSprint | analytics/src/analytics/integrations/etldb/sprint_model.py:13-30 | Equals the intended sprint sync: it raises without a QUAD map and changes nothing then. |
| QuadModel.NumberOfDigits | analytics/src/analytics/integrations/etldb/quad_model.py:81 | Reading back the zero-padded digits of a number gives the number. |
| QuadModel.DigitsOfNumber | analytics/src/analytics/integrations/etldb/quad_model.py:81 | A digit string is the zero-padded rendering of its value. |
| QuadModel.Format | analytics/src/analytics/integrations/etldb/quad_model.py:81 | `strftime("%Y-%m-%d")`: a ten-character literal. Its round trip is FormatThenParse. |
| QuadModel.Parse | analytics/src/analytics/integrations/etldb/quad_model.py:47-48 | The date a `YYYY-MM-DD` literal of a valid date denotes; None for any other literal. Its round trip is ParseThenFormat. |
| QuadModel.FormatThenParse | analytics/src/analytics/integrations/etldb/quad_model.py:81 | `strftime("%Y-%m-%d")` of a valid date parses back to the date. |
| QuadModel.ParseThenFormat | analytics/src/analytics/integrations/etldb/quad_model.py:81 | A date literal that parses is the rendering of its date. |
| QuadModel.FormatMatchesIffSameDate | analytics/src/analytics/integrations/etldb/quad_model.py:81-85 | A stored date's rendering equals a parsable literal iff the dates are equal. |
| QuadModel.ValuesMatchIffSameAttrs | analytics/src/analytics/integrations/etldb/quad_model.py:72-85 | The code's string-tuple comparison decides the same as comparing the stored values with the parsed payload. |
| QuadModel.SyncKeepsDatesValid | analytics/src/analytics/integrations/etldb/quad_model.py:10-30 | A sync with valid dates keeps every stored date valid. |
| QuadModel.SyncQuadSpec | analytics/src/analytics/integrations/etldb/quad_model.py:10-30 | The intended quad sync: InvalidDate without a write, otherwise the dimension sync. Stated in SyncQuadReturnsItsOwnRow. |
| QuadModel.SyncQuadReturnsItsOwnRow | analytics/src/analytics/integrations/etldb/quad_model.py:10-30 | The intended sync keeps dates valid and returns the payload's own row id. It reports UPDATE iff a compared value differs, and a repeat is quiet. |
| QuadModel.SelectAsWritten | analytics/src/analytics/integrations/etldb/quad_model.py:78-80 | The where clause `ghid = ghid` is always true, so the select reads the table's first row, or none in an empty table. |
| QuadModel.UpdateDimensionsAsWritten | analytics/src/analytics/integrations/etldb/quad_model.py:60-90 | `_updateDimensions` as written: compares with the first row. It gives NONE with that row's id, SqlSyntaxError when the values differ, or NoRowSelected on an empty table. Stated in AsWrittenNeverUpdates. |
| QuadModel.SyncQuadAsWritten | analytics/src/analytics/integrations/etldb/quad_model.py:10-30 | `syncQuad` as written. Stated in SyncQuadAsWrittenComposes, AsWrittenReportsAnotherQuadsId and AsWrittenChangeFails. |
| QuadModel.SyncQuadAsWrittenComposes | analytics/src/analytics/integrations/etldb/quad_model.py:10-30 | The as-written sync is the insert followed by the as-written update path. |
| QuadModel.AsWrittenNeverUpdates | analytics/src/analytics/integrations/etldb/quad_model.py:84-88 | As written a sync never reports UPDATE and never changes a stored quad. NONE carries the first row's id. |
| QuadModel.AsWrittenReportsAnotherQuadsId | analytics/src/analytics/integrations/etldb/quad_model.py:78 | When quad k has the first quad's values, re-syncing unchanged reports the first quad's id as written, but k's own id as intended. The two ids differ. |
| QuadModel.AsWrittenChangeFails | analytics/src/analytics/integrations/etldb/quad_model.py:87 | A changed quad makes the as-written sync fail with an SQL error. The intended sync rewrites that row and reports UPDATE. |
| QuadModel.AsWrittenResyncOfLaterQuadFails | analytics/src/analytics/integrations/etldb/quad_model.py:78-87 | Re-syncing unchanged a stored quad other than the first, whose values differ from the first row's, fails with an SQL error as written. The intended sync reports NONE with that quad's own id. |
| QuadModel.EtlQuadModel.InsertDimensions | analytics/src/analytics/integrations/etldb/quad_model.py:33-57 | A literal PostgreSQL rejects raises without a write. Otherwise it is insert on conflict do nothing, returning an id iff the ghid was new. |
| QuadModel.EtlQuadModel.UpdateDimensions | analytics/src/analytics/integrations/etldb/quad_model.py:60-90 | No row for the ghid raises at the unpacking. A stored quad whose payload dates do not parse raises InvalidDate with no write. Otherwise the quad's own row is compared and, when it differs, rewritten: the intended sync. |
| QuadModel.EtlQuadModel.SyncQuad | analytics/src/analytics/integrations/etldb/quad_model.py:10-30 | Equals the intended quad sync: InvalidDate with no change, or the dimension sync with the parsed values. |

## Left out

- Logging, `log_database_settings`, `run_task` and the quad model's `print` are not modelled. They only observe the state.
- The `time.*` metrics (api/src/data_migration/load/load_oracle_data_task.py:120-125, 154-159, 180) and the `count.before.*`/`count.after.*` metrics that `log_row_count` sets (lines 86, 92, 190) are not modelled, because they come from the clock and from row counts taken only for logging. The metrics in the model are the source's metrics without those keys.
- Per-table metric names in the model use the table's dictionary key where the source uses `staging_table.name` (lines 119, 122, 153, 156, 179). The two agree because `main()` builds both dictionaries keyed by `t.name` (lines 198-199).
- The database is modelled as maps and sequences. Connections, cursors, commits and concurrent sessions are not modelled. A table's transaction is modelled as commit-or-restore.
- A database error is an injected parameter (`fault` or `faults`): the step of a table whose statement raises.
- A chunk size below 1 makes `itertools.batched` raise. It is modelled as an error at the update step.
- The current time (`utcnow`, `current_timestamp`) is a parameter.
- The iteration order of the `foreign_tables` dictionary is given as `tableNames`.
- The order in which `.all()` returns keys is left open: any enumeration of the selected key set.
- The staging write of a table is one map update per statement. The model cannot tell this apart from in-place row writes, because each table runs inside one transaction.
- `sql.py` defines the update and insert builders with two arguments and has no select-new-rows or select-updated-rows builder, but the task calls them per chunk of keys. The model restricts each chunk's statements to that chunk's keys, following the task's calls.
- A tombstoned row whose key reappears in the source stays deleted. The update statement never sets `is_deleted`, and the insert skips keys already staged. `LoadOracleData.ReappearingKeyStaysTombstoned` states this; it follows the code.
- The metrics map is assumed to start empty, and an unset counter counts as 0. `Task` (`src/task/task.py`) is not part of this model.
- `VersionMixin.new_version` is not part of this model. Its result, the versioned parent rows and the new version's id, is a parameter of `OpportunityModels.OpportunityVersions.NewVersion`.
- At most one `current_child` row per parent (`OpportunityModels.OnePointerPerParent`) is assumed, not enforced. The table's primary key `(parent_id, child_id)` would accept several rows for one parent; only the scalar `Parent.current_child` relationship presumes a single row. States with two pointer rows for one parent are not modelled. In such a state SQLAlchemy would load one of the rows, and `new_version` would move only that one.
- The agency models, the lookup tables behind the status ids and the API schemas are not part of this model.
- `EtlDb`, `etldb.py` and `etl_dataset.py` are not part of this model. `EtlEntityType` is assumed to be DELIVERABLE, QUAD and SPRINT, and `effective_date` is a constructor argument.
- The PostgreSQL serial consumes a value even when an insert meets a conflict: for `on conflict do nothing` on the dimension tables, and for `on conflict ... do update` on `gh_deliverable_quad_map`, whose row keeps its old id. `EtlDimension.InsertOnConflictDoNothing` and `DeliverableModel.UpsertFact` advance it only for a new row, so ids may be denser than in the database.
- The quad's f-string SQL at line 47 is open to SQL injection through quoted names. The model treats every name as a plain value.
- PostgreSQL date input formats other than `YYYY-MM-DD` are treated as rejected. Years are limited to 1000–9999.
- Column types and driver conversions of the sprint and deliverable tables are not modelled (the schema is not part of this model): values compare as stored. `quad_length`'s `int()` conversion is taken as given.
- pandas missing values (NaN) in a record are not modelled.
- QuadModel.EtlQuadModel.UpdateDimensions: models the intended behaviour (select by the quad's own ghid, and an update that is actually interpolated), not lines 78 and 87 as written. Those are modelled separately, see Findings.

## Findings

| source | as written | input that shows it | evidently intended | confidence | as-written member | corrected member |
|---|---|---|---|---|---|---|
| analytics/src/analytics/integrations/etldb/quad_model.py:78 | The select's predicate `ghid = ghid` compares the column with itself, so `fetchone()` reads the table's first row for every quad. | Two stored quads with the same name, dates and duration; the second is synced again, unchanged. The first quad's id is returned. | Select the row `where ghid = :ghid` with the quad's own ghid. | not executed | QuadModel.AsWrittenReportsAnotherQuadsId | QuadModel.SyncQuadReturnsItsOwnRow |
| analytics/src/analytics/integrations/etldb/quad_model.py:87 | The update string has no `f` prefix, so the `{new_name}` and other braces reach PostgreSQL as literal text, which it rejects. | A stored quad (the first row) synced again with a changed name. The sync raises instead of reporting UPDATE. | Interpolate or bind the new values, so the row is rewritten and UPDATE is reported. | not executed | QuadModel.AsWrittenChangeFails | QuadModel.EtlQuadModel.UpdateDimensions |

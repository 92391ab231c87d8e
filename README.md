# change-logs: a verified model of the audit pipeline

This project models the core of the Laravel package `imamsudarajat04/change-logs`.
The package writes an audit row to the `change_logs` table whenever an Eloquent
model is created, updated, deleted or restored. It also offers filters, statistics
and retention deletes over that table. The model covers these parts:

- **Configuration** (`ChangeLogsConfig`). The package configuration is a `Config`
  record. `Shipped` holds the defaults of `config/change-logs.php`. It includes the
  `excluded_timestamps` key that the trait reads but the shipped file never defines.
- **Audited model** (`Entities`). An `Entity` is the audited Eloquent model: its class
  and key, its original snapshot, its attributes in order, its `$hidden`, and the
  optional methods the pipeline looks for with `method_exists`. `Dirty` is
  `getDirty()`.
- **Table** (`ChangeLogModel`). A `Record` is a row of `change_logs`, made of an id,
  the 14 fillable columns and `created_at`. `LogStore` is a class whose `records`
  field is the table; `Insert` and `DeleteWhere` change it in place. This module
  also holds:
  - the fillable whitelist;
  - the `saving` hook and the `date` accessor;
  - every query scope, as a `Condition` that a row `Holds`;
  - `where` and `delete` as filters, and the `created_at desc` order;
  - `limit`, and the newest row.
- **Trait** (`HasChangeLogs`). The trait's hooks (`getChangeLogExcludedFields`,
  `shouldLogChanges`, `formatChangeLogValue`, the description and tag defaults) are
  modelled, and so are its relation queries over the table.
- **Service** (`ChangeLogService`).
  - The record builders, one per action, and `createLog` with `getUserInformation`.
  - The policy helpers: excluded fields, loggable attributes, the value formatter,
    description and tags.
  - `query`, `getStatistics`, and the three cleanup operations.
  - The loops of the source stay loops: the per-field `foreach` of `logUpdate`, the
    map building of `logBulkChanges`, the successive assignments of
    `getUserInformation`, the step-by-step narrowing of `query`, and the partition
    done by `delete()`.
- **Observer** (`ChangeLogObserver`). The `shouldLog` gate and the five event
  handlers are methods over the `LogStore`.
- **Trait and service together** (`TraitPipeline`). This is what happens when the
  trait's hooks shadow the service's defaults.
- **Package tests** (`Scenarios`). The expectations of the package's own tests are
  restated as members over the model, under the shipped configuration.

The clock, the authenticated user and the HTTP request are parameters:
`Context(today, now, user, request)`. Dates are whole day numbers. A timestamp is a
number, and a date value carries its own 'Y-m-d H:i:s' text.

Behaviour of the source that the model keeps on purpose:

- **Booleans under the trait.** A model that uses the trait has its own
  `formatChangeLogValue`, so the service's formatter is never reached for it. Its
  booleans are therefore stored as booleans, not as 'true'/'false'.
- **Dates under the trait.** The trait recognises only the mutable `\DateTime` as a
  date. An immutable date with a `toArray` method becomes an array.
- **`forceDeleted` marks nothing.** The handler calls `logDelete` without
  `forceDelete`, so it writes no ' (Permanent)' suffix and no 'force_delete' tag.
- **The trait reads the wrong key.** It reads `excluded_timestamps`, which the
  shipped configuration does not define. The timestamps are therefore always
  excluded for trait models, whatever `exclude_timestamps` says.
- **Empty description on delete.** A non-forced DELETE row stores a null
  description as '', because of the string concatenation.
- **Negative limit.** A negative `limit` leaves the rows unlimited.
- **No user.** `where('user_id', null)` matches the rows without a user.
- **Cleanup is gated.** `cleanup` does nothing while `cleanup.enabled` is off. The
  shipped default is off.

## Model

| member | source | states |
|---|---|---|
| RecordAction.FromName | src/Enums/RecordAction.php:5-11 | the backed enum maps a string to a case exactly when that case's value is the string |
| RecordAction.NameCase | src/Enums/RecordAction.php:5-11 | every case value is already upper case, and its lower-case form is the `track_actions` key (create, update, delete, restore) |
| Values.UpperIdempotent | src/Models/ChangeLog.php:134-137 | `strtoupper` leaves no lower-case ASCII letter, and applying it twice equals applying it once |
| Values.WithoutKeys | src/Services/ChangeLogService.php:63-66 | `array_diff_key` keeps exactly the entries whose key is not excluded, in order, and its key set is the old key set minus the excluded keys |
| ChangeLogsConfig.ShippedDefaults | config/change-logs.php:12-166 | shipped defaults: every action is tracked (also one not listed), timestamps are excluded under either key, bulk mode, no queue, cleanup off with 365 days, limit 20, IP, user agent, method and endpoint all tracked, and the hidden list is exactly the seven shipped names in their order |
| Entities.Dirty | src/Observers/ChangeLogObserver.php:60-61 | `getDirty()` holds exactly the attributes that are new or differ from the original snapshot |
| ChangeLogModel.MassAssign | src/Models/ChangeLog.php:55-70 | mass assignment keeps exactly the given keys that are fillable, with their values |
| ChangeLogModel.FillableWhitelist | src/Models/ChangeLog.php:55-70 | `id`, `created_at` and `updated_at` can never be mass-assigned |
| ChangeLogModel.FillableKeepsPayload | tests/Unit/Models/ChangeLogTest.php:6-13 | `loggable_type`, `action`, `old_value` and `new_value` are always accepted |
| ChangeLogModel.Saving | src/Models/ChangeLog.php:89-93 | saving (as intended) leaves a row with a date, fills a missing date with today, and changes nothing else |
| ChangeLogModel.SavingAsWrittenLeavesNullDate | src/Models/ChangeLog.php:89-105 | as written, the hook's emptiness test reads through the accessor, so a null date stays null; no date scope then matches the row, while the intended hook makes `today()` match it |
| ChangeLogModel.SavedDateReadsBack | src/Models/ChangeLog.php:100-105 | the accessor reads a saved row's date the same as the unsaved one, and reads a missing date as today |
| ChangeLogModel.ScopeActionIgnoresCase | src/Models/ChangeLog.php:134-137 | `action($a)` matches the same rows as `action(strtoupper($a))`, namely the rows whose action is the enum case named `strtoupper($a)`; the lower-case name matches too |
| ChangeLogModel.DateScopesInclusive | src/Models/ChangeLog.php:171-186 | `dateRange` includes both ends; `today`, `yesterday` and `onDate` match a single day; `onDate(d)` equals `dateRange(d, d)` |
| ChangeLogModel.WithinAndOlderPartition | src/Models/ChangeLog.php:195-212 | for the same N, every dated row matches exactly one of `withinDays(N)` and `olderThanDays(N)` |
| ChangeLogModel.Where | src/Models/ChangeLog.php:134-224 | a scope applied to the table keeps exactly the rows satisfying it |
| ChangeLogModel.WhereKeepsNewestFirst | src/Traits/HasChangeLogs.php:55-58 | narrowing an ordered relation by a further `where` keeps it ordered `created_at desc` |
| ChangeLogModel.Except | src/Services/ChangeLogService.php:458-460 | the rows a `delete()` leaves are exactly those not satisfying its condition |
| ChangeLogModel.ExceptKeepsOrder | src/Services/ChangeLogService.php:458-460 | deleting rows keeps the remaining rows' insertion order |
| ChangeLogModel.WhereExceptSplit | src/Services/ChangeLogService.php:458-460 | deleted rows plus remaining rows are as many as the rows before |
| ChangeLogModel.FilterAll | src/Traits/HasChangeLogs.php:40-44 | a chain of `where`s keeps exactly the rows satisfying every condition |
| ChangeLogModel.SortNewestFirst | src/Services/ChangeLogService.php:416 | `orderBy('created_at', 'desc')` returns a permutation of its rows with `created_at` non-increasing |
| ChangeLogModel.Latest | src/Traits/HasChangeLogs.php:123-128 | the first row under `created_at desc, id desc` is a row of the input that no other row comes before, and it is absent only for no rows |
| ChangeLogModel.Limit | src/Traits/HasChangeLogs.php:69-72 | `limit(n)` is a prefix of the rows of length min(n, count); a negative n leaves the rows unchanged |
| ChangeLogModel.ExceptKeepsInvariant | src/Services/ChangeLogService.php:458-460 | a delete keeps the table invariant (ids below the counter and increasing, every row dated) |
| ChangeLogModel.Partition | src/Services/ChangeLogService.php:458-460 | one pass over the rows returns the rows a delete keeps and the number it removes |
| ChangeLogModel.LogStore.Insert | src/Services/ChangeLogService.php:225 | `create($logData)` appends exactly one row: the data after the corrected saving hook, an id above every existing one (standing in for the UUID key), and the current time; it keeps the table invariant |
| ChangeLogModel.LogStore.DeleteWhere | src/Services/ChangeLogService.php:458-460 | `delete()` removes exactly the matching rows, returns their number and keeps the table invariant |
| HasChangeLogs.TraitExcludedFields | src/Traits/HasChangeLogs.php:138-147 | the trait excludes `hidden_fields`, the model's `$hidden`, and the three timestamps when `excluded_timestamps` is true or missing |
| HasChangeLogs.ShouldLogChanges | src/Traits/HasChangeLogs.php:186-194 | false when `enabled` is off; otherwise the lower-case action's `track_actions` entry, true when missing |
| HasChangeLogs.TraitFormatValue | src/Traits/HasChangeLogs.php:206-218 | mutable dates become their 'Y-m-d H:i:s' text, `toArray` objects become arrays, and everything else (booleans included) is unchanged |
| HasChangeLogs.ChangeLogs | src/Traits/HasChangeLogs.php:40-44 | the relation holds exactly the rows whose loggable type and id are the model's, newest first |
| HasChangeLogs.ChangeLogsByAction | src/Traits/HasChangeLogs.php:55-58 | the model's rows whose action is the upper-cased argument, newest first |
| HasChangeLogs.ChangeLogsByUser | src/Traits/HasChangeLogs.php:83-86 | the model's rows whose `user_id` is the argument, newest first |
| HasChangeLogs.RecentChangeLogs | src/Traits/HasChangeLogs.php:69-72 | a newest-first prefix of the model's rows of at most `limit` rows, exactly `limit` when there are enough |
| HasChangeLogs.HasChangeLogs | src/Traits/HasChangeLogs.php:110-113 | true exactly when some row belongs to the model |
| HasChangeLogs.LastChangeLog | src/Traits/HasChangeLogs.php:123-128 | absent exactly when the model has no rows; otherwise one of its rows that no other row of it comes before |
| ChangeLogService.ExcludedFields | src/Services/ChangeLogService.php:288-301 | the model's own list verbatim when it defines the hook; otherwise `hidden_fields` plus the timestamps exactly when `exclude_timestamps` is set |
| ChangeLogService.LoggableAttributes | src/Services/ChangeLogService.php:272-278 | the snapshot has exactly the non-excluded attribute keys, each with its attribute's value |
| ChangeLogService.FormatValue | src/Services/ChangeLogService.php:313-335 | the hook wins; otherwise date, then `toArray`, then boolean, then identity; without a hook no boolean or date is ever stored |
| ChangeLogService.NormaliseEndpoint | src/Services/ChangeLogService.php:255-259 | the endpoint always starts with '/', is '/' for the root and '/' followed by the path otherwise |
| ChangeLogService.EndpointSingleSlash | src/Services/ChangeLogService.php:255-259 | for the root or a path without a leading slash, the endpoint has exactly one leading slash |
| ChangeLogService.UserInformation | src/Services/ChangeLogService.php:236-262 | `user_id` is always present; ip, user agent, method and endpoint are present exactly when their toggle is on; the method is upper-cased and the endpoint normalised |
| ChangeLogService.GetUserInformation | src/Services/ChangeLogService.php:236-262 | the successive assignments build exactly the context map above |
| ChangeLogService.Enriched | src/Services/ChangeLogService.php:209-217 | enrichment never changes the builder's payload columns, and leaves the row dated, keeping a date already given |
| ChangeLogService.MergeEnriches | src/Services/ChangeLogService.php:209-217 | `array_merge` of the context over the row, followed by the date default, is that enriched row |
| ChangeLogService.OldValues | src/Services/ChangeLogService.php:123-129 | the bulk old map has exactly the changed keys, each the formatted original value |
| ChangeLogService.NewValues | src/Services/ChangeLogService.php:123-129 | the bulk new map has exactly the changed keys, each the formatted new value |
| ChangeLogService.BulkPayload | src/Services/ChangeLogService.php:121-129 | the `foreach` of `logBulkChanges` fills exactly those two maps |
| ChangeLogService.UpdateEntries | src/Services/ChangeLogService.php:61-81 | excluded keys are dropped; no rows when none remain; otherwise one row per remaining field in per-field mode, else one bulk row |
| ChangeLogService.SnapshotRows | src/Services/ChangeLogService.php:32-199 | CREATE and RESTORE rows have a null old value and the loggable attributes as new value; DELETE rows the reverse; all carry the model's class, key, the user and today |
| ChangeLogService.DeleteMarkers | src/Services/ChangeLogService.php:167-168 | a forced delete appends 'force_delete' after the hook's tags and ' (Permanent)' to the description; otherwise the tags are the hook's and a null description becomes '' |
| ChangeLogService.NoExcludedKeyLogged | src/Services/ChangeLogService.php:61-144 | no excluded key is in a snapshot, is a per-field row's field, or is a key of a bulk row's old or new map |
| ChangeLogService.BulkRowShape | src/Services/ChangeLogService.php:121-144 | bulk mode writes one UPDATE row without a field, whose old and new maps have exactly the remaining keys, old values from the original snapshot |
| ChangeLogService.PerFieldRowShape | src/Services/ChangeLogService.php:74-110 | per-field mode writes one UPDATE row per remaining field, each naming its field with formatted old and new value, and no field twice |
| ChangeLogService.PerFieldRows | src/Services/ChangeLogService.php:74-76 | the k-th per-field row is the `logFieldChange` row of the k-th remaining field |
| ChangeLogService.CreateLog | src/Services/ChangeLogService.php:209-227 | appends exactly the enriched row (queued or not, the same row) |
| ChangeLogService.LogCreate | src/Services/ChangeLogService.php:32-49 | appends exactly the CREATE row |
| ChangeLogService.LogFieldChange | src/Services/ChangeLogService.php:93-110 | appends exactly the one per-field UPDATE row |
| ChangeLogService.LogBulkChanges | src/Services/ChangeLogService.php:121-144 | appends exactly the one bulk UPDATE row |
| ChangeLogService.LogUpdate | src/Services/ChangeLogService.php:61-81 | appends exactly the rows of `UpdateEntries`, in order, through the per-field loop or the bulk call |
| ChangeLogService.LogDelete | src/Services/ChangeLogService.php:155-172 | appends exactly the DELETE row, marked or not according to `forceDelete` |
| ChangeLogService.LogRestore | src/Services/ChangeLogService.php:182-199 | appends exactly the RESTORE row |
| ChangeLogService.NarrowingMatch | src/Services/ChangeLogService.php:380-417 | after the first k filter steps a row remains exactly when it is in the table and satisfies each given step so far |
| ChangeLogService.QueryRowsMatch | src/Services/ChangeLogService.php:380-417 | the filtered rows are exactly the table's rows satisfying every given filter; date range only with both ends, loggable only with both id and type |
| ChangeLogService.QueryResult | src/Services/ChangeLogService.php:380-417 | the query result holds exactly the matching rows, newest first |
| ChangeLogService.Query | src/Services/ChangeLogService.php:380-417 | applying the filters one after another and ordering yields that result |
| ChangeLogService.CountAction | src/Services/ChangeLogService.php:430-433 | a per-action count is at most the total and positive exactly when a row has that action |
| ChangeLogService.CountUser | src/Services/ChangeLogService.php:434-438 | a per-user count is at most the total and positive exactly when a row has that user |
| ChangeLogService.ByAction | src/Services/ChangeLogService.php:430-433 | `by_action` has exactly the actions that occur, each with its positive count |
| ChangeLogService.ByUser | src/Services/ChangeLogService.php:434-438 | `by_user` has exactly the non-null users that occur, each with its positive count |
| ChangeLogService.ActionCountsAddUp | src/Services/ChangeLogService.php:429-433 | the four per-action counts add up to the number of rows |
| ChangeLogService.ByActionTotal | src/Services/ChangeLogService.php:429-433 | the `by_action` counts add up to `total` |
| ChangeLogService.GetStatistics | src/Services/ChangeLogService.php:424-441 | all figures come from the same query: `total` is its size, `by_action` sums to it, `by_user` as above, `recent` its first min(10, total) rows |
| ChangeLogService.Cleanup | src/Services/ChangeLogService.php:448-469 | with cleanup disabled it returns 0 and keeps the table; otherwise it deletes exactly the rows dated before today minus the days (default `cleanup.days`), keeps every other row in order, and returns their number; the id counter is untouched |
| ChangeLogService.CleanupByDateRange | src/Services/ChangeLogService.php:478-483 | deletes exactly the rows dated within the range, both ends included, keeps every other row in order, and returns their number; not gated; the id counter is untouched |
| ChangeLogService.CleanupBeforeDate | src/Services/ChangeLogService.php:491-496 | deletes exactly the rows dated strictly before the date, keeps every other row in order, and returns their number; not gated; the id counter is untouched |
| ChangeLogObserver.ShouldLog | src/Observers/ChangeLogObserver.php:134-141 | when the model defines `shouldLogChanges`, exactly its answer for the action; otherwise true |
| ChangeLogObserver.Created | src/Observers/ChangeLogObserver.php:36-43 | nothing when the gate is closed, otherwise exactly the CREATE row |
| ChangeLogObserver.Updated | src/Observers/ChangeLogObserver.php:54-68 | nothing when the gate is closed or nothing is dirty, otherwise exactly the update rows of the dirty attributes |
| ChangeLogObserver.Deleted | src/Observers/ChangeLogObserver.php:79-86 | nothing when the gate is closed, otherwise exactly the unforced DELETE row |
| ChangeLogObserver.Restored | src/Observers/ChangeLogObserver.php:97-104 | nothing when the gate is closed, otherwise exactly the RESTORE row |
| ChangeLogObserver.ForceDeleted | src/Observers/ChangeLogObserver.php:115-122 | gated on DELETE, it appends the same unforced DELETE row as `deleted` |
| ChangeLogObserver.ForceDeleteUnmarked | src/Observers/ChangeLogObserver.php:115-122 | that row carries neither 'force_delete' nor ' (Permanent)', unlike a forced `logDelete` |
| ChangeLogObserver.UpdateLogsIffLoggableChange | src/Observers/ChangeLogObserver.php:54-68 | an update writes no row exactly when every dirty attribute is excluded |
| TraitPipeline.TraitKeepsBooleans | src/Services/ChangeLogService.php:315-317 | for a trait model a boolean is stored as a boolean, while a model without hooks stores 'true'/'false' |
| TraitPipeline.TraitFormatsLikeServiceForMutableDates | src/Traits/HasChangeLogs.php:206-218 | for mutable dates and objects the trait formats like the service |
| TraitPipeline.TraitTimestampsIgnoreShippedKey | src/Traits/HasChangeLogs.php:138-147 | with `excluded_timestamps` missing, a trait model excludes the timestamps and its `$hidden` whatever `exclude_timestamps` says |
| TraitPipeline.ShippedRedaction | tests/Unit/Services/ChangeLogServiceTest.php:51-63 | under the shipped configuration no password or timestamp appears in a trait model's CREATE, RESTORE or DELETE snapshot or in its update maps |
| TraitPipeline.TraitGate | src/Traits/HasChangeLogs.php:186-194 | the observer's gate for a trait model is `shouldLogChanges`: open for every action when shipped, closed for all when disabled |
| TraitPipeline.TraitDefaultsInRows | src/Traits/HasChangeLogs.php:158-175 | the trait's null description and empty tags give CREATE rows no description and DELETE rows '' with no tags |
| Scenarios.CreatingLogsOnce | tests/Unit/Feature/ChangeLogTrackingTest.php:7-20 | creating a user whose attributes include `created_at` and `updated_at` writes one CREATE row for it, with its name and without password or either timestamp |
| Scenarios.SoftDeleteAndRestore | tests/Unit/Feature/ChangeLogTrackingTest.php:58-84 | creating, soft-deleting and restoring a post leaves exactly a CREATE, a DELETE and a RESTORE row for it (the restore's "updated" event adds none), each lookup by action and key finds one, and the RESTORE snapshot has no `deleted_at` |
| Scenarios.RestoreSavesNothing | tests/Unit/Feature/ChangeLogTrackingTest.php:77 | the "updated" event that `restore()` raises leaves the table unchanged, because only `updated_at` and `deleted_at` are dirty and both are excluded |
| Scenarios.RestoreDirty | tests/Unit/Feature/ChangeLogTrackingTest.php:77 | restoring a trashed post dirties no attribute but `updated_at` and `deleted_at` |
| Scenarios.CreateDeleteRestoreRows | tests/Unit/Feature/ChangeLogTrackingTest.php:70-81 | in a CREATE, DELETE, RESTORE table of one key, each lookup of DELETE or RESTORE by action and key finds exactly one row |
| Scenarios.SingleFieldUpdate | tests/Unit/Feature/ChangeLogTrackingTest.php:22-37 | changing only the name (the save also touching `updated_at`) writes one bulk UPDATE row holding exactly the old and new name |
| Scenarios.UserDirty | tests/Unit/Feature/ChangeLogTrackingTest.php:29 | an update of one of name and email makes that attribute dirty and nothing else but `updated_at`, and the original value is the old one |
| Scenarios.SuccessiveUpdates | tests/Unit/Feature/ChangeLogTrackingTest.php:99-114 | create and two single-field updates leave one CREATE and two UPDATE rows, and the last one is `lastChangeLog()` |
| Scenarios.CreateThenTwoUpdates | tests/Unit/Feature/ChangeLogTrackingTest.php:99-114 | in a table of one create and two updates of a user, the updates are separate UPDATE rows and `lastChangeLog()` is the last one |
| Scenarios.CreateThenUpdate | tests/Unit/Traits/HasChangeLogsTest.php:38-51 | creating a user and updating its name once leaves a CREATE then an UPDATE row, and `lastChangeLog()` is the UPDATE row |
| Scenarios.CreateThenOneUpdate | tests/Unit/Traits/HasChangeLogsTest.php:38-51 | in a table of one create and one update of a user, `lastChangeLog()` is the UPDATE row |
| Scenarios.LastIsNewest | src/Traits/HasChangeLogs.php:123-128 | when all rows are the user's and the last has the same time and the highest id, it is `lastChangeLog()` |
| Scenarios.DateScopes | tests/Unit/Commands/CleanupCommandTest.php:6-34 | rows dated today, yesterday and a week ago: one `today`, one `yesterday`, three `withinDays(7)`, one `olderThanDays(2)` |
| Scenarios.ThreeDatedRows | tests/Unit/Commands/CleanupCommandTest.php:29-33 | the same four counts for any three rows with those dates |
| Scenarios.DateAutoSet | tests/Unit/Commands/CleanupCommandTest.php:36-46 | a row created without a date reads back as today through the accessor under both hooks: the store, which runs the corrected hook, stores today, and the hook as written leaves the stored date null |

## Left out

- **Persistence destination.** `createLog` and the queued job write through the
  class named by `user_model`, not `log_model`
  (src/Services/ChangeLogService.php:225). The model treats that write as an
  abstract append to the change-log table.
- **Queue.** Queue dispatch and `CreateChangeLogJob` (tries, timeout, failure
  logging) are asynchronous infrastructure. Queued and direct modes append the
  same row.
- **Facades and clock.** The `Auth`, `Request` and `Log` facades, `now()` and
  `today()` become the `Context` parameter. The `Log::info` call of `cleanup` is
  dropped.
- **Commands.** `InstallCommand`, `CleanupCommand` and `StatsCommand` are console
  I/O. `CleanupCommand`'s `--force` does not bypass the `cleanup.enabled` check of
  `cleanup`, and `ChangeLogService.Cleanup` keeps that check.
- **Wiring.** `ChangeLogsServiceProvider` and the facade are container wiring only.
- **Observer registration.** `withoutChangeLogs`, `registerChangeLogObserver` and
  `unregisterChangeLogObserver` mutate the framework's static observer state.
- **Relations.** The `loggable` and `user` relations resolve other models.
- **`fieldChangeLogs`.** It filters on a `field_name` column that the table does
  not have, so it fails on any database.
- **SQL and JSON.** The query builder, SQL, the JSON columns and the migration
  schema are not modelled. The table is a sequence of rows, and the queries are
  filters and sorts over it.
- **Calendar bounds.** `thisWeek` and `thisMonth` take their first and last day as
  parameters, because calendar arithmetic is not modelled.
- **Tie order.** SQL leaves the order of rows with equal `created_at`
  unspecified, so the model's order among equal times is one of the allowed
  orders.
- Entities.Dirty: compares values by equality, not through Eloquent's
  cast-aware comparison.
- ChangeLogService.OldValues: a PHP array's key order is not part of the
  payload maps. The ordered list of changed fields that drives the per-field rows
  is kept.
- ChangeLogService.ByAction: keyed by the action case rather than by its
  string value.
- **Unused argument.** The `field` argument of `getDescription` is never used by
  the source, so the model leaves it out.
- ChangeLogModel.LogStore.Insert: the row key is a UUID (`HasUuids`); the model
  draws it from a strictly increasing counter, whereas time-ordered UUIDs are only
  approximately increasing. The `lastChangeLog` tie-break among rows with equal
  `created_at` in `Scenarios` rests on that order. The store also applies the
  corrected saving hook; this matters only for rows created without a date outside
  `createLog`, which always sets the date.
- ChangeLogModel.FillableWhitelist: states which keys are refused and accepted,
  not that the whitelist has no duplicates.

## Findings

| source | as written | input that shows it | evidently intended | confidence | as-written member | corrected member |
|---|---|---|---|---|---|---|
| src/Models/ChangeLog.php:89-93 | the `saving` hook tests `empty($model->date)`, which goes through the `date` accessor (lines 100-105); the accessor returns `today()` for a null date, so the test is never true and the hook never fills the column | a row created without `date` is stored with a null `date`; `today()`, `dateRange` and `cleanup` never match it, although reading `$log->date` shows today | fill a missing `date` with today before saving, so that the stored row is dated | not executed | ChangeLogModel.SavingAsWrittenLeavesNullDate | ChangeLogModel.Saving |

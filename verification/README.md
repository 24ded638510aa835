# Photo Broom: verified model of its data layer

Photo Broom keeps a photo collection behind one database interface with two implementations, an in-memory
one and an SQL one, and feeds them through small concurrent pipelines. These Dafny modules model the parts of it
where correctness is hard to see from the code, and prove what they promise.

`dafny verify dfyconfig.toml` checks everything.

## How it is organised

| files | content |
|---|---|
| `common`, `photos`, `tables` | photo records and deltas; the tables as rows |
| `sql`, `filter_compiler`, `filter_correctness`, `query_uniqueness`, `sql_laws`, `filter_on_records` | a fragment of SQL with an evaluator (three-valued conditions, joins, IN, COALESCE as in sections 7.5, 8.4 and 6.9 of ISO/IEC 9075:1992); filters, their meaning, their compilation, its correctness, when it repeats no photo, and that it selects by the record read back |
| `sorting`, `photo_ordering`, `ordering_query` | actions as in-place stable sorts; the joins and ORDER BY keys of the SQL side; when the ordering statement is accepted, what it returns, and when both backends agree |
| `transaction` | a connection whose every request may fail, nested transactions, trees of scopes |
| `tag_storage`, `table_keys`, `sql_backend`, `sql_log`, `sql_update`, `sql_insert`, `photo_removal` | SQL storage as a refinement of a map of photos; removing photos |
| `encoding`, `map_compare`, `change_log`, `change_undo`, `memory_backend` | the change log, replaying and undoing it, groups |
| `inline_tasks`, `async_tasks` | the tasks queue over an executor that runs tasks inside `add`, and over an asynchronous one |
| `photos_analyzer`, `delta_merge`, `updater_flush` | the analyzer and updater pipeline; merging deltas before they are stored; what the last flush stores |
| `signal_postponer`, `people_store` | two timers with a deadline; records of people |
| `photo_cache`, `photo_setters`, `setter_survival` | photo objects kept in step with the backend; when all changes made through them are kept, and when a single one is |
| `config_storage`, `model_index`, `item_walk`, `walk_order` | nested configuration; the index comparator; the walk between two items; the order both share |

Where the source changes fields, a class does so here, and its methods are proved against functions on values; the
lemmas are about those functions. Concurrent parts are state machines whose steps are atomic at the granularity of a
lock or of one event; their main results are about every state of every run.

Whether a request to the database server succeeds is a parameter (`Connection.succeeds`), as is the meaning of LIKE.
A statement either takes its meaning on the tables or changes nothing.

## Where the code does not do what one might expect

Each of these is proved, by an exact condition, by a concrete run, or by both.

- Fetching documents a unique list of ids; a filter for a person or a group role alone can repeat a photo
  (`QueryUniqueness.GeneratedOnceExactly`).
- A flag filter never selects a photo without a row of flags, although its flags read as 0
  (`FilterOnRecords.FlagsByRecord`).
- Deltas merged by `operator|=` keep the first value of a field, not the last. Of the two updates of a new photo,
  merging the tags before the geometry stores a geometry flag of 0 (`DeltaMerge.GeometryFlagKeptExactly`).
- The analyzer stalls when a batch of photos lacks nothing (`PhotosAnalyzer.StallsExactly`, `CompletePhotosStall`).
- A configuration key that starts with `::` is read back under another name (`ConfigStorage.SaveAndLoad`).
- `listAllBetween` climbs one level only, and then misses its end on deeper trees (`ItemWalk.ListAllBetween`).
- The index comparator is not a strict weak order on a set that has an item together with two unrelated items below it
  (`ModelIndex.StrictlyWeakExactly`).
- A tag set, or a flag marked, through a photo object can be lost for good when a delta of the photo is queued or a
  refresh of it is due at the call. Otherwise it is kept, provided that, until it is stored, the object is not let go and
  no other database step names the photo; either of these can lose it too. The checksum, the size and the group are fields
  of their own and are always kept (`SetterSurvival.KeptExactly`, `LostByLookingUpAgain`, `LostByGrouping`,
  `PhotoSetters.SettersAreKept`).
- When the updater waits for its tasks and flushes, deltas whose events were not handled yet are left out of the flush
  (`UpdaterFlush.AllStoredExactly`).
- A notification made by the postponer's own callback is lost (`SignalPostponer.NotificationInCallbackIsLost`).
- Storing a person record under an id that was never given out lets a later record overwrite it
  (`PeopleStore.CounterStaysAheadExactly`, `NewRecordReplacesNoneExactly`).
- The photosRemoved signal is emitted whether or not the removal succeeded, and with no ids when the first read failed
  although the removal goes on (`PhotoRemoval.RemovePhotos`).
- A real commit that fails leaves its transaction open; the next outermost scope fails to begin and rolls it back
  (`Transactions.RunOutermost`).
- The SQL backend ignores a path in an update and does not read back a size that is not valid
  (`SqlUpdate.SameRecordExactly`).
- Sorting with nothing but the invalid tag type gives ORDER BY an empty list, and the same tag twice in one action gives
  two joins under one alias. The server rejects both statements, the failure goes unnoticed, and no photos are returned,
  where the memory backend returns all of them (`OrderingQuery.AcceptedExactly`, `BackendsAgreeExactly`,
  `PhotoOrdering.EmptyListExactly`). Next to other keys the invalid tag sorts in memory only
  (`PhotoOrdering.InvalidTagSortsInMemoryOnly`).
- The comment in `setTags` says that non-empty tags are copied; tags the photo already has are not replaced
  (`PhotoCache.PhotoInfo.SetAllTags`).

## Model

| member | source | states |
|---|---|---|
| `FilterCorrectness.GenerateCorrect` | src/database/backends/sql_backends/sql_filter_query_generator.cpp:53-351 | For every well-formed filter and every database whose group rows refer to stored photos, the compiled query yields a value exactly when it is the id of a stored photo that the filter selects; `Selects` is the meaning said on the rows, without any query |
| `FilterCorrectness.GroupCorrect` | src/database/backends/sql_backends/sql_filter_query_generator.cpp:87-120 | A group selects the intersection of its members; an empty group selects everything |
| `FilterCorrectness.VisitGroupCorrect` | src/database/backends/sql_backends/sql_filter_query_generator.cpp:87-120 | The nested IN conditions of any list of queries yield the stored photos in all of them |
| `FilterCorrectness.ComplementOf` | src/database/backends/sql_backends/sql_filter_query_generator.cpp:227-234 | NOT IN is a plain complement within the photos as long as the inner query yields no NULL |
| `FilterCorrectness.VisitTagCorrect` | src/database/backends/sql_backends/sql_filter_query_generator.cpp:123-181 | Without includeEmpty a photo is selected exactly when one of its rows has the tag and, if a value is given, a stored value that compares with it; ratings compare as numbers |
| `FilterCorrectness.VisitTagWithEmpty` | src/database/backends/sql_backends/sql_filter_query_generator.cpp:123-181 | With includeEmpty a missing tag, or a NULL value, counts as the empty text; the LEFT JOIN and COALESCE neither lose nor add photos |
| `FilterCorrectness.VisitFlagsCorrect` | src/database/backends/sql_backends/sql_filter_query_generator.cpp:184-214 | Flags select the photos with a flags row where all (or one) of the named columns have the wanted value |
| `FilterCorrectness.VisitSha256Correct` | src/database/backends/sql_backends/sql_filter_query_generator.cpp:217-224 | A checksum selects exactly the photos with a row of that checksum |
| `FilterCorrectness.VisitExpressionCorrect` | src/database/backends/sql_backends/sql_filter_query_generator.cpp:244-298 | An expression selects exactly the photos with a matching tag text or a matching name of a person on them, exact terms by equality and others by LIKE |
| `FilterCorrectness.VisitRoleCorrect` | src/database/backends/sql_backends/sql_filter_query_generator.cpp:308-333 | Regular photos are those that are neither representative nor member; the NULL-free UNION makes the complement exact |
| `FilterCorrectness.VisitPersonCorrect` | src/database/backends/sql_backends/sql_filter_query_generator.cpp:336-341 | A person selects the photos with a row naming that person; rows without a person never match |
| `FilterCorrectness.VisitGeneralFlagCorrect` | src/database/backends/sql_backends/sql_filter_query_generator.cpp:344-351 | A general flag that was never set, or is NULL, counts as 0 |
| `FilterCorrectness.InLeftJoin` | src/database/backends/sql_backends/sql_filter_query_generator.cpp:164-178 | What a LEFT JOIN of photos with one table contains: the joined pairs, and alone the photos that match no row |
| `FilterCorrectness.DisjunctionTrue` | src/database/backends/sql_backends/sql_filter_query_generator.cpp:184-214 | An OR chain built by the generator is true exactly when one of its conditions is, also when others are unknown |
| `FilterOnRecords.QueryByRecord` | src/database/backends/sql_backends/sql_filter_query_generator.cpp:53-351 | A filter built from tags, flags, checksum, path and id in any nesting yields exactly the photos whose record, as it is read back from the tables, fits; for tables with one row for each photo and tag |
| `FilterOnRecords.FlagsByRecord` | src/database/backends/sql_backends/sql_filter_query_generator.cpp:65-81 | A flag filter looks at the flags that are read back; a photo without a row of flags, whose flags read as 0, it never selects |
| `FilterOnRecords.FlagsByStoredDelta` | src/database/backends/sql_backends/sql_backend.cpp:921-945 | After a delta with flags is stored, flag filters select the photo by exactly those flags |
| `SqlLaws.InIsDisjunction` | src/database/backends/sql_backends/sql_filter_query_generator.cpp:87-120 | IN is the three-valued OR of the equalities with each row |
| `SqlLaws.CastReadsNumbers` | src/database/backends/sql_backends/sql_filter_query_generator.cpp:32-38 | A rating cast to an integer is the number its text starts with, whatever follows |
| `QueryUniqueness.GeneratedOnceExactly` | src/database/backends/sql_backends/photo_operator.cpp:159-200 | The query of a filter returns no photo twice, as fetching promises, if and only if it is not, alone, a person marked twice on a photo, a photo representing two groups, or a photo twice a member |
| `QueryUniqueness.JoinQueryOnce` | src/database/backends/sql_backends/photo_operator.cpp:173-200 | A join shows no photo twice exactly when no photo has two rows that pass both conditions |
| `QueryUniqueness.PersonsOnceExactly` | src/database/backends/sql_backends/sql_filter_query_generator.cpp:336-341 | The query of a person repeats a photo exactly when two rows name the person on it |
| `FilterCompiler.GenerateQuery` | src/database/backends/sql_backends/sql_filter_query_generator.cpp:53-351 | The generator with its loops over groups, flags and terms builds the query whose meaning GenerateCorrect states |
| `Sorting.OnPhotos` | src/database/backends/memory_backend/memory_backend.cpp:517-550 | Running an action as in-place stable sorts in reverse order leaves a permutation of the photos ordered lexicographically by the flattened keys, ties in input order |
| `Sorting.SortsCompose` | src/database/backends/memory_backend/memory_backend.cpp:540-548 | Sorting by less significant keys first and then stably by more significant ones is sorting by the concatenated key list |
| `Sorting.StableSortCorrect` | src/database/backends/memory_backend/memory_backend.cpp:519-538 | A stable sort by one key yields a permutation ordered by the key with ties in input order |
| `Sorting.TristateCompare` | src/database/backends/memory_backend/memory_backend.cpp:16-28 | The three-way comparison is negative, zero or positive as one photo goes before, ties with or goes after the other; a missing tag compares as the smallest |
| `Sorting.TagOrderMeans` | src/database/backends/memory_backend/memory_backend.cpp:469-550 | By a tag the smaller text comes first, or the greater one, and a photo without the tag before all that have a text |
| `Sorting.TimestampMeans` | src/database/backends/memory_backend/memory_backend.cpp:469-550 | By timestamp the earlier date comes first and on one date the earlier time, or all of it the other way round |
| `Sorting.FirstActionDecides` | src/database/backends/memory_backend/memory_backend.cpp:469-550 | By several actions the first one decides, and the others only where it ties |
| `Common.StrLessMeans` | src/database/backends/memory_backend/memory_backend.cpp:16-28 | Raw values compare as in a dictionary: a proper prefix first, else by the first character that differs |
| `PhotoOrdering.SortingContext.ProcessAction` | src/database/backends/sql_backends/photo_operator.cpp:203-244 | The context collects exactly the flattened ORDER BY keys of the action and one join for each tag key, in order |
| `PhotoOrdering.ActionsAgree` | src/database/backends/sql_backends/photo_operator.cpp:203-244 | Two photos that compare alike (no tag empty for one and missing for the other, the same invalid tag) are ordered by the ORDER BY list of any nested action as in memory |
| `PhotoOrdering.ActionsAgreeExactly` | src/database/backends/sql_backends/photo_operator.cpp:203-244 | All actions the statement can express order two photos alike on both backends if and only if the photos compare alike |
| `PhotoOrdering.InvalidTagSortsInMemoryOnly` | src/database/backends/sql_backends/photo_operator.cpp:205-222 | For photos without empty tag values that holds if and only if both have the same invalid tag: memory sorts by it, the SQL list skips it |
| `PhotoOrdering.EmptyListExactly` | src/database/backends/sql_backends/photo_operator.cpp:203-244 | There is nothing to order by exactly when every single sort in the action, at any depth, is by the invalid tag |
| `PhotoOrdering.JoinsKeepPhotos` | src/database/backends/sql_backends/photo_operator.cpp:134-156 | The chain of LEFT JOINs with aliased tags tables gives each photo exactly one row, in table order |
| `PhotoOrdering.ChainColumn` | src/database/backends/sql_backends/photo_operator.cpp:205-222 | The column an ORDER BY key reads on that row is the photo's own value of the tag, or NULL |
| `OrderingQuery.CompileOnPhotos` | src/database/backends/sql_backends/photo_operator.cpp:134-147 | The joins and the list collected in the context are put into one statement over the filter's query |
| `OrderingQuery.AcceptedExactly` | src/database/backends/sql_backends/photo_operator.cpp:138-147 | The statement is accepted if and only if the action gives something to order by and joins no tag twice |
| `OrderingQuery.FoundTagIsRead` | src/database/backends/sql_backends/sql_backend.cpp:1027-1060 | With one row per tag, the row a join finds holds what is read back as the tag of the photo |
| `OrderingQuery.RowsMeanRecords` | src/database/backends/sql_backends/photo_operator.cpp:138-147 | Ordering the joined rows by their columns, NULL first, is ordering the photos' records by the keys |
| `OrderingQuery.SelectionMeans` | src/database/backends/sql_backends/photo_operator.cpp:136-147 | The rows that are ordered belong to exactly the stored photos the filter means |
| `OrderingQuery.ReturnsExactly` | src/database/backends/sql_backends/photo_operator.cpp:134-200 | What is fetched is each selected photo once, in any order the keys allow, and every such list is possible; a rejected statement fetches nothing |
| `OrderingQuery.MemoryOrderSatisfiesSql` | src/database/backends/memory_backend/memory_backend.cpp:469-550 | What the memory backend's stable sorts return is each selected photo once in an order the ORDER BY list allows |
| `OrderingQuery.BackendsAgreeExactly` | src/database/backends/sql_backends/photo_operator.cpp:134-156 | The list from memory is one the SQL backend may return if and only if the statement is accepted, or there is nothing to return |
| `OrderingQuery.SameListFromBoth` | src/database/backends/sql_backends/photo_operator.cpp:134-156 | With a sort by id anywhere in the action both backends return the very same list, under that same condition |
| `Transactions.RunOutermost` | src/database/backends/sql_backends/transaction.cpp:23-48 | For every tree of begun scopes: the level returns to zero, the real commit is issued exactly when the outermost begin succeeded and every scope committed, otherwise a real rollback; without success nothing is durable |
| `Transactions.RunInner` | src/database/backends/sql_backends/transaction.cpp:72-114 | An inner scope issues no request to the server and leaves only whether it and all scopes inside committed |
| `Transactions.AllCommitMeansEveryScope` | src/database/backends/sql_backends/transaction.cpp:87-114 | The recursive notion of commit used there is: no scope of the flattened tree was only destroyed |
| `Transactions.NestedTransaction.TrCommit` | src/database/backends/sql_backends/transaction.cpp:87-107 | Only the outermost commit reaches the server, as a commit when every level was clean and as a rollback otherwise |
| `Transactions.Transaction.Destroy` | src/database/backends/sql_backends/transaction.cpp:31-36 | A scope destroyed without a commit rolls back; after a commit destroying changes nothing |
| `TagStorage.StoreTags` | src/database/backends/sql_backends/sql_backend.cpp:851-914 | Whatever rows the photo had, on success it has exactly one row for each tag in order, rows reused by id; other photos' rows are unchanged even on failure |
| `TagStorage.TrimTags` | src/database/backends/sql_backends/sql_backend.cpp:882-896 | Deleting the surplus keeps the first rows of the photo and every row of others |
| `TagStorage.WriteEntries` | src/database/backends/sql_backends/sql_backend.cpp:898-909 | Overwriting reused rows and then inserting leaves one row for each entry in order |
| `TagStorage.OverwriteMine` | src/database/backends/sql_backends/sql_backend.cpp:665-722 | Overwriting a row by its id replaces just that row of just that photo |
| `SqlBackend.ReadStoredTags` | src/database/backends/sql_backends/sql_backend.cpp:1027-1060 | Rows that hold the entries of a tag list read back as that list |
| `SqlBackend.LastRowIsRead` | src/database/backends/sql_backends/sql_backend.cpp:1043-1057 | Of several rows of a tag the last one with a value is read |
| `TableKeys.StoringKeepsOneRowPerTag` | src/database/backends/sql_backends/sql_backend.cpp:851-914 | Storing a tag list keeps one row per tag for every photo |
| `TableKeys.StoringKeepsKeys` | src/database/backends/sql_backends/sql_backend.cpp:769-813 | A stored delta keeps tag ids distinct, one row per tag, and rows only for photos that exist |
| `Tables.UpsertFirst` | src/database/backends/sql_backends/sql_backend.cpp:1276-1296 | After update-or-insert the photo reads the new row and every other photo what it read before |
| `Tables.UpdateRowsEach` | src/database/backends/sql_backends/sql_backend.cpp:1276-1296 | An update overwrites all rows of the photo and no others, in place |
| `SqlUpdate.UpdateOrInsert` | src/database/backends/sql_backends/sql_backend.cpp:1276-1296 | Success leaves the upserted table and failure of either statement leaves the tables as they were |
| `SqlUpdate.StoreData` | src/database/backends/sql_backends/sql_backend.cpp:769-813 | Success means every column of the delta and its log rows are stored; it fails only when a request does; no other table is ever touched |
| `SqlUpdate.Update` | src/database/backends/sql_backends/sql_backend.cpp:277-308 | On success every photo reads as the deltas applied in order to a plain map of photos, photos without a delta read exactly as before, those ids are announced, and the log rows added, read back and replayed, take every photo's tags from old to new and, undone, back to old; on failure, which only a failed request or a transaction left open causes, nothing is durable and nothing is announced |
| `SqlBackend.ReadsAsApplied` | src/database/implementation/photo_data.cpp:27-50 | Reading a photo back after its delta was stored equals applying the delta to what was read before, for tags, checksum, valid geometry and flags |
| `Photos.ApplyChanges` | src/database/implementation/photo_data.cpp:27-50 | A record is changed in each field the delta sets, and in no other |
| `Photos.WholeDeltaRestores` | src/database/implementation/photo_data.cpp:124-133 | The delta made from a whole record turns any record into it |
| `SqlBackend.OthersReadTheSame` | src/database/backends/sql_backends/sql_backend.cpp:769-813 | No other photo reads differently after a delta was stored |
| `SqlUpdate.ReflectsOneMore` | src/database/backends/sql_backends/sql_backend.cpp:288-292 | One more stored delta extends the agreement with the plain map, for all photos at once |
| `SqlLog.ExplainsOneMore` | src/database/backends/sql_backends/sql_backend.cpp:769-813 | A log that leads every photo's tags from a starting state to the present when replayed, and back when undone, keeps doing both through one more stored delta |
| `SqlLog.RowsReadBack` | src/database/backends/sql_backends/photo_change_log_operator.cpp:54-102 | The rows written for log entries read back as those entries |
| `SqlUpdate.SameRecordExactly` | src/database/backends/sql_backends/sql_backend.cpp:362-409 | The record read back is the whole record of the plain map exactly when the deltas left the path alone and the last size is valid or the size that stands for none |
| `SqlUpdate.SameRecordForOneDelta` | src/database/backends/sql_backends/sql_backend.cpp:769-813 | The same for one delta, as a condition on the delta the caller can test beforehand |
| `SqlInsert.Introduce` | src/database/backends/sql_backends/sql_backend.cpp:729-764 | A new photo gets an unused id and reads as its delta on an empty record; nothing else reads differently |
| `SqlInsert.Insert` | src/database/backends/sql_backends/sql_backend.cpp:995-1020 | A batch of new photos gets distinct new ids in order, all or none of it durable; it fails only when a request does or a transaction was left open |
| `SqlInsert.OneMoreIntroduced` | src/database/backends/sql_backends/sql_backend.cpp:1003-1008 | Introducing one more photo keeps all earlier ones as they were introduced |
| `PhotoRemoval.RemovePhotos` | src/database/backends/sql_backends/photo_operator.cpp:79-131 | Success removes exactly the photos the filter selected in the starting tables, with every dependent row, and none of them was in a group; failure leaves nothing durable; the announced ids are exactly those photos whenever the first read worked, whatever becomes of the removal |
| `PhotoRemoval.RemovalRuns` | src/database/backends/sql_backends/photo_operator.cpp:100-117 | The statement list works exactly when no snapshot id is in a group, and then removes everything of the snapshot ids and nothing else, although it empties the tables the filter reads |
| `PhotoRemoval.RemovedMeans` | src/database/backends/sql_backends/photo_operator.cpp:100-117 | What is left of each table are the rows of photos the filter did not select |
| `PhotoRemoval.NotInGroupsMeans` | src/database/backends/sql_backends/photo_operator.cpp:105 | The foreign keys of groups and members let the photos go exactly when none of the selected photos is grouped |
| `MapCompare.Compare` | src/core/containers_utils.hpp:42-95 | The three outputs are the entries only in the left map, those with another value in the right one, and those only in the right one |
| `MapCompare.PatchRestores` | src/core/containers_utils.hpp:42-95 | Patching the old map with the three outputs gives the new map |
| `MapCompare.UnpatchRestores` | src/core/containers_utils.hpp:42-95 | Undoing the three outputs over the new map gives the old map back |
| `MapCompare.SetDifference` | src/core/containers_utils.hpp:56-70 | The merge walk over two ordered ranges yields the entries whose key the other range lacks, in order |
| `Encoding.Base64RoundTrip` | src/database/implementation/aphoto_change_log_operator.cpp:8-12 | Decoding base64 as in section 4 of RFC 4648 restores every byte sequence, with any padding |
| `Encoding.Base64Bits` | src/database/implementation/aphoto_change_log_operator.cpp:8-12 | Three bytes are the 24 bits of four digits, first ones first, as section 4 of RFC 4648 says |
| `Encoding.Base64Alphabet` | src/database/implementation/aphoto_change_log_operator.cpp:8-12 | The digits are those of Table 1 of RFC 4648 |
| `Encoding.Utf8RoundTrip` | src/database/implementation/aphoto_change_log_operator.cpp:8-12 | Decoding UTF-8 restores every text |
| `Encoding.Utf8Table` | src/database/implementation/aphoto_change_log_operator.cpp:8-12 | Each character has the bytes that the table in section 3 of RFC 3629 gives it |
| `ChangeLog.TagRoundTrip` | src/database/implementation/aphoto_change_log_operator.cpp:15-54 | An encoded tag decodes to the same type and value |
| `ChangeLog.TagChangeRoundTrip` | src/database/implementation/aphoto_change_log_operator.cpp:24-71 | An encoded tag change decodes to the same type, old and new value |
| `ChangeLog.GroupChangeRoundTrip` | src/database/implementation/aphoto_change_log_operator.cpp:147-175 | The record of a group change determines the new group and role |
| `ChangeLog.ReplayTags` | src/database/implementation/aphoto_change_log_operator.cpp:116-144 | Replaying the records of a tag change over the old tags gives the new tags |
| `ChangeLog.ReplayDifference` | src/database/implementation/aphoto_change_log_operator.cpp:78-98 | Replaying what one delta recorded takes a photo from its old to its new tags and group |
| `ChangeUndo.UndoDifference` | src/database/implementation/aphoto_change_log_operator.cpp:78-98 | Undoing what one delta recorded, newest entry first, takes a photo from its new tags and group back to the old ones: the old values are in the log |
| `ChangeUndo.DifferenceInOrder` | src/database/implementation/aphoto_change_log_operator.cpp:101-175 | Removed tags are recorded first, then changed, then added ones, and the group last |
| `ChangeLog.StoreDifference` | src/database/implementation/aphoto_change_log_operator.cpp:78-98 | The loops over removed, changed and added tags record exactly the difference that ReplayDifference replays |
| `ChangeLog.TagMapInjective` | src/database/implementation/aphoto_change_log_operator.cpp:116-144 | Tags are determined by the map of stored type numbers that replaying rebuilds |
| `MemoryBackend.EveryRunKeeps` | src/database/backends/memory_backend/memory_backend.cpp:34-85 | In every run of adding, updating, grouping and ungrouping: ids stay below their counters, a photo has a role exactly when it has a live group, and replaying the log over each photo as first added reconstructs its tags and group, and undoing it over the present ones gives them as first added |
| `MemoryBackend.AddPhotosRecord` | src/database/backends/memory_backend/memory_backend.cpp:34-60 | New photos get the next ids in order, each with the record its delta describes; no other photo, group or log entry changes |
| `MemoryBackend.NewGroupMeans` | src/database/backends/memory_backend/memory_backend.cpp:384-396 | A new group has the next id, the representative and the kind given, and the other groups stay |
| `MemoryBackend.RepresentativeMeans` | src/database/backends/memory_backend/memory_backend.cpp:404-438 | What removing a group answers is the photo with the role of representative in it, of several the one with the greatest id, and nothing exactly when there is none |
| `MemoryBackend.UpdateKeeps` | src/database/backends/memory_backend/memory_backend.cpp:63-85 | A batch of updates that names live groups keeps that invariant |
| `MemoryBackend.UpdateRecord` | src/database/backends/memory_backend/memory_backend.cpp:63-85 | After a batch each record is the old one with its own deltas applied in order |
| `MemoryBackend.AddGroupKeeps` | src/database/backends/memory_backend/memory_backend.cpp:384-396 | Adding a group keeps the invariant and changes only the group of the representative |
| `MemoryBackend.RemoveGroupClearsExactly` | src/database/backends/memory_backend/memory_backend.cpp:399-438 | Removing a group clears the group of exactly its photos and changes no other photo |
| `MemoryBackend.RemoveGroupKeeps` | src/database/backends/memory_backend/memory_backend.cpp:399-438 | Removing a group keeps the invariant: no photo refers to the group that is gone |
| `MemoryBackend.Backend.UpdateAll` | src/database/backends/memory_backend/memory_backend.cpp:63-85 | The loop over the deltas leaves the state those lemmas are about and announces exactly the photos named |
| `MemoryBackend.Backend.DropGroup` | src/database/backends/memory_backend/memory_backend.cpp:399-438 | The collecting loop and the batch of clearing deltas leave the state of RemoveGroupClearsExactly and return the representative |
| `InlineTasks.EachStartedOnce` | src/core/implementation/task_executor_utils.cpp:64-138 | With an executor that runs tasks inside `add`, pushing any forest of tasks on an idle queue returns with nothing waiting and every task of the forest started exactly once |
| `InlineTasks.PushConserves` | src/core/implementation/task_executor_utils.cpp:64-72 | For any state of the queue, what was started or waits grows by exactly the pushed task and all it leads to |
| `InlineTasks.PushLeavesNothingWaiting` | src/core/implementation/task_executor_utils.cpp:100-109 | A push returns with nothing waiting below the limit, and at the limit only adds the task to those waiting |
| `InlineTasks.PushesDepthFirst` | src/core/implementation/task_executor_utils.cpp:22-26 | While the depth of the forest stays within the limit, tasks start in the order of a depth-first run |
| `InlineTasks.Push` | src/core/implementation/task_executor_utils.cpp:64-72 | The re-entrant recursion terminates, never passes the limit, and restores the executing counter |
| `InlineTasks.DispatchedByMode` | src/core/implementation/task_executor_utils.cpp:112-121 | First in, first out takes the task that waits longest, last in, first out the newest, and the others stay in order |
| `InlineTasks.ReentrantQueue.TryToFireTasks` | src/core/implementation/task_executor_utils.cpp:100-109 | The loop that is re-entered from inside the executor leaves exactly the state of the recursive function |
| `AsyncTasks.EveryRunKeeps` | src/core/implementation/task_executor_utils.cpp:39-138 | In every interleaving of pushes, clears and completions: at most workers + 2 execute, a task waits only at the limit, every pushed task is in exactly one place, and each dispatch took the oldest (FIFO) or newest (LIFO) waiting task |
| `AsyncTasks.StepKeeps` | src/core/implementation/task_executor_utils.cpp:64-138 | Each atomic step under the lock keeps that invariant |
| `AsyncTasks.FireKeeps` | src/core/implementation/task_executor_utils.cpp:112-121 | A dispatch below the limit keeps the partition, the choice by mode and, in FIFO mode, push order over all dispatches |
| `AsyncTasks.OnePlaceEach` | src/core/implementation/task_executor_utils.cpp:64-138 | The counting form of the partition says: waiting, executing, finished and cleared are disjoint and cover all pushed tasks |
| `AsyncTasks.DestructionEnds` | src/core/implementation/task_executor_utils.cpp:51-61 | Destroying drops what waits, whatever the state; then every sequence of completions takes exactly those tasks out of execution and starts none, so after as many as were executing nothing is left and the wait can end |
| `AsyncTasks.FinishInAnyOrder` | src/core/implementation/task_executor_utils.cpp:51-61 | Every order of finishing the executing tasks is possible and leaves nothing executing or waiting |
| `AsyncTasks.ClearedForGood` | src/core/implementation/task_executor_utils.cpp:75-79 | In every run a task that waits when the queue is cleared stays cleared: it never executes, and no dispatch ever chooses it |
| `AsyncTasks.RunHistory` | src/core/implementation/task_executor_utils.cpp:64-138 | In every run the finished tasks are those whose completions happened, in that order, and whatever was dispatched is executing or finished |
| `AsyncTasks.TasksQueue.TaskFinished` | src/core/implementation/task_executor_utils.cpp:124-138 | The counter and the deque take the completion step of the model |
| `PhotosAnalyzer.EveryRunKeeps` | src/database/database_tools/implementation/photos_analyzer.cpp:96-152 | In every interleaving with w workers: at most 4w - 1 tasks are alive, every queued photo is handled, in flight or waiting exactly once and in order, and the tasks ever created are exactly those the handled photos lacked |
| `PhotosAnalyzer.StepBounded` | src/database/database_tools/implementation/photos_analyzer.cpp:104-129 | Each step keeps the bound, counting two tasks for each photo in flight |
| `PhotosAnalyzer.StepConserves` | src/database/database_tools/implementation/photo_info_updater.cpp:272-293 | Each created task is alive or finished, once |
| `PhotosAnalyzer.UpdatesExactly` | src/database/database_tools/implementation/photos_analyzer.cpp:132-144 | Handed photos get an update if and only if one of them lacks it |
| `PhotosAnalyzer.UpdatesOnce` | src/database/database_tools/implementation/photos_analyzer.cpp:132-144 | Distinct photos never get the same update twice |
| `PhotosAnalyzer.ProcessTakes` | src/database/database_tools/implementation/photos_analyzer.cpp:104-129 | As many photos as there are workers, or all, leave the front of the line; afterwards some wait only while a batch is loading or there are tasks enough |
| `PhotosAnalyzer.LeftBehind` | src/database/database_tools/implementation/photos_analyzer.cpp:147-152 | Photos waiting at a stop are never handled: what is handled, in flight or in line later was handled or in flight at the stop, or was queued since |
| `PhotosAnalyzer.StallsExactly` | src/database/database_tools/implementation/photos_analyzer.cpp:132-144 | A step leads into a stall if and only if it hands over a batch that lacks nothing while photos wait and no task or signal is left |
| `PhotosAnalyzer.NeverStalls` | src/database/database_tools/implementation/photos_analyzer.cpp:96-144 | When every loaded batch has a photo lacking something, waiting photos always imply that something will look at the line again |
| `PhotosAnalyzer.CompletePhotosStall` | src/database/database_tools/implementation/photos_analyzer.cpp:132-144 | Complete photos do stall it: with one worker and two such photos nothing under way will look at the second, which waits until photos are queued again |
| `PhotosAnalyzer.Analyzer.UpdatePhotos` | src/database/database_tools/implementation/photos_analyzer.cpp:132-144 | The loop adds for each photo the tasks it lacks, geometry before tags, and ends the loading |
| `PhotosAnalyzer.Analyzer.ProcessPhotos` | src/database/database_tools/implementation/photos_analyzer.cpp:104-129 | At most one batch of at most w photos is taken off the front of the line, and only below 2w tasks |
| `DeltaMerge.MergeAppliesBothExactly` | src/database/implementation/photo_data.cpp:100-121 | Merging two deltas is applying one after the other if and only if the second repeats every value the first one sets and it also sets: the first value wins |
| `DeltaMerge.InsertFieldsMerge` | src/database/implementation/photo_data.cpp:100-121 | Inserting the fields one by one gives that merge |
| `DeltaMerge.MergeInto` | src/database/implementation/photo_data.cpp:100-121 | The loop over the other delta's fields inserts each where there is none and merges flags one by one |
| `DeltaMerge.TagsFlushedExactly` | src/database/database_tools/implementation/photo_info_updater.cpp:296-339 | Flushing the cached deltas of a photo stores the tags that applying them in order would, exactly when the first and last tags given are the same |
| `DeltaMerge.GeometryFlushedExactly` | src/database/database_tools/implementation/photo_info_updater.cpp:296-339 | The same for the size |
| `DeltaMerge.FlagsFlushedExactly` | src/database/database_tools/implementation/photo_info_updater.cpp:296-339 | For flags: exactly when the last delta with flags gives every flag that any delta gave, and with its first value |
| `DeltaMerge.GeometryFlagKeptExactly` | src/database/database_tools/implementation/photo_info_updater.cpp:122-198 | Of the two updates of a photo, merging the tags first loses the geometry flag exactly when the photo did not have it; geometry first keeps both flags |
| `DeltaMerge.TagsUpdateAdds` | src/database/database_tools/implementation/photo_info_updater.cpp:160-198 | Collected tags are added to those the photo had, which stay, and of its flags only the one for EXIF data changes |
| `UpdaterFlush.LastFlushStoresExactly` | src/database/database_tools/implementation/photo_info_updater.cpp:259-269 | In every run, waiting for all tasks and flushing has stored exactly the deltas whose events were handled before, in the order they were posted, those between two flushes merged photo by photo; the others are still events |
| `UpdaterFlush.AllStoredExactly` | src/database/database_tools/implementation/photo_info_updater.cpp:259-269 | All tasks have finished then, and everything they posted is stored if and only if no event was left unhandled |
| `UpdaterFlush.Cache.ApplyDelta` | src/database/database_tools/implementation/photo_info_updater.cpp:296-312 | A delta is merged into what is cached for its photo |
| `UpdaterFlush.Cache.FlushCache` | src/database/database_tools/implementation/photo_info_updater.cpp:324-338 | What is cached is sent as one batch, and nothing is sent when nothing is cached |
| `ConfigStorage.SaveAndLoad` | src/main.cpp:78-157 | For prefix-free keys, saving and loading gives the same configuration if and only if no key starts with the separator |
| `ConfigStorage.OrderDoesNotMatter` | src/main.cpp:88-92 | The nested object built does not depend on the order in which the keys are written |
| `ConfigStorage.WritesCommute` | src/main.cpp:106-129 | Writes at paths of which none is a prefix of the other commute |
| `ConfigStorage.OthersAreFound` | src/main.cpp:106-129 | A write changes nothing at unrelated paths |
| `ConfigStorage.NameRoundTrip` | src/main.cpp:131-157 | Splitting a key and joining it on the way down the objects gives the key back exactly when it does not start with the separator |
| `ConfigStorage.JoinSplit` | src/main.cpp:90 | Joining the segments of a split key gives the key back |
| `ConfigStorage.SplitUnique` | src/main.cpp:90 | Splitting is the only way to take a key apart into segments without separators, from the left |
| `ConfigStorage.Save` | src/main.cpp:78-92 | The scalars of the object built are exactly the configured values, each at its own path |
| `ConfigStorage.ReadNode` | src/main.cpp:131-157 | Every scalar is read under its name and everything read is a scalar under its name |
| `SignalPostponer.EveryRunKeeps` | src/core/implementation/signal_postponer.cpp:36-49 | In every run both timers are active or both inactive, and every fire happens at the earlier of last notification + delay and first notification of the burst + patience, after all notifications it answers |
| `SignalPostponer.TimeoutKeeps` | src/core/signal_postponer.hpp:34-49 | A timeout answers the whole burst on time and stops both timers |
| `SignalPostponer.EveryNotificationAnswered` | src/core/implementation/signal_postponer.cpp:36-49 | Every notification is answered by one fire within patience, or its burst is still open with patience left |
| `SignalPostponer.FiresNeverOutnumber` | src/core/implementation/signal_postponer.cpp:36-49 | Fires never outnumber notifications |
| `SignalPostponer.NotificationInCallbackIsLost` | src/core/signal_postponer.hpp:34-49 | A notification made by the callback is lost: both timers are stopped after it and nothing will answer it |
| `SignalPostponer.Postponer.NotifyAt` | src/core/implementation/signal_postponer.cpp:36-42 | The two timer fields take the notification step of the model |
| `PeopleStore.StoringTwiceIsStoringOnce` | src/database/implementation/apeople_information_accessor.cpp:6-49 | Storing the same record without id a second time returns the same id and leaves the state equal, for any mix of existing records |
| `PeopleStore.StoreChangesOneRecord` | src/database/implementation/apeople_information_accessor.cpp:6-49 | A store changes no record but the one whose id it returns: that one is removed exactly when neither a place nor a person is given, and else is the record given |
| `PeopleStore.StoredWithoutId` | src/database/implementation/apeople_information_accessor.cpp:20-47 | A record without id replaces at most one stored record: one of the same photo with its valid place, or with its person and no place; a new id is given out exactly when there is none |
| `PeopleStore.NothingElseIsLost` | src/database/implementation/apeople_information_accessor.cpp:20-47 | Such a store loses no place of any photo, and no person but one at the very place that is stored |
| `PeopleStore.InnerDropNeverTaken` | src/database/implementation/apeople_information_accessor.cpp:42-43 | The inner drop branch is never reached under the asserted preconditions |
| `PeopleStore.ResolveMeans` | src/database/implementation/apeople_information_accessor.cpp:20-40 | The search returns the first record of the photo with the same valid place, or the same person and no place |
| `PeopleStore.NewRecordReplacesNoneExactly` | src/database/backends/memory_backend/memory_backend.cpp:339-355 | A new record replaces no other if and only if the counter's id is not in use |
| `PeopleStore.CounterStaysAheadExactly` | src/database/backends/memory_backend/memory_backend.cpp:339-355 | The counter stays ahead of all ids if and only if no record is stored under an id never given out |
| `PeopleStore.Accessor.StoreInfo` | src/database/implementation/apeople_information_accessor.cpp:6-49 | The search loop and the two ways of storing leave the state and id those lemmas are about |
| `PhotoCache.EveryRunKeeps` | src/database/implementation/async_database.cpp:157-304 | In every interleaving of setters and database steps there is at most one live object for a photo, and a live object with nothing pending for its photo equals the backend's record |
| `PhotoCache.StepKeeps` | src/database/implementation/photo_info.cpp:94-185 | Each step keeps that: setters with their queued delta, both halves of marking a flag, refreshes, lookups, and the backend's updates and group changes |
| `PhotoCache.ModifiesKeeps` | src/database/implementation/async_database.cpp:185-198 | A database step may change the photos it then refreshes and no others |
| `PhotoCache.OneObjectPerPhoto` | src/database/implementation/photo_info_cache.cpp:43-68 | The cache finds every live object, so no photo has two |
| `PhotoCache.RefreshesExactly` | src/database/implementation/async_database.cpp:185-198 | A database step refreshes exactly the photos that a delta of it names, the representative, or the photos of the removed group |
| `PhotoCache.GetKeeps` | src/database/implementation/async_database.cpp:157-182 | A lookup hands out the live object or a new one equal to the backend's record |
| `PhotoCache.Settles` | src/database/implementation/async_database.cpp:264-304 | Whatever is pending can be run to its end, and then all live objects equal the backend's records |
| `PhotoCache.DeltaSaysTheChange` | src/database/implementation/photo_info.cpp:102-172 | The delta a setter queues, applied to the record the object had, gives what the setter made of the object |
| `PhotoCache.LoadedOnce` | src/database/implementation/photo_info.cpp:102-130 | After the checksum or the size is set its flag reads as loaded, and it cannot be set again |
| `PhotoCache.OwnTagsStay` | src/database/implementation/photo_info.cpp:132-146 | Setting all tags leaves own values, and adds those new ones that are not empty |
| `PhotoSetters.SettersAreKept` | src/database/implementation/photo_info.cpp:94-185 | In every interleaving in which setters are called and marks completed only while no delta of the photo is queued and no refresh of it is due, and no other update names it, the record ends as all those changes applied one after the other |
| `PhotoSetters.StepKept` | src/database/implementation/async_database.cpp:185-198 | Each step keeps the record the photo will have equal to the one meant, but for flags whose marking is under way |
| `SetterSurvival.KeptExactly` | src/database/implementation/photo_info.cpp:94-185 | A call that gives a tag or a flag a value is kept in every run that spares it if and only if no delta of the photo was queued and no refresh of it due at the call; one that gives the checksum, the size or the group is always kept. A run spares the value if it has no later change of the slot and, for a tag or flag, until the value has reached the backend, the object is not let go and no database step other than a queued one names the photo. A flag is marked here with both halves together and no other marking of it under way; `WriteKept` has the second half alone |
| `SetterSurvival.WriteKept` | src/database/implementation/photo_info.cpp:94-185 | The kept half for whatever a setter or the second half of a mark writes |
| `SetterSurvival.WriteCanBeLost` | src/database/implementation/async_database.cpp:185-198 | The lost half: anything written to tags or flags of a photo that is not up to date ends, in some run that spares it, as if it had not been written |
| `SetterSurvival.LostByLookingUpAgain` | src/database/implementation/async_database.cpp:157-182 | The object must not be let go: from any up-to-date call, letting it go and looking the photo up again before the change is stored leads to a run that ends with the slot as it was before the call |
| `SetterSurvival.LostByGrouping` | src/database/implementation/async_database.cpp:185-198 | No database step may name the photo: from any up-to-date call, a group made of the photo before the change is stored does the same, though it touches no tag and no flag |
| `PhotoCache.PhotoInfo.SetAllTags` | src/database/implementation/photo_info.cpp:132-146 | Tags already present stay, empty values are dropped, and the delta queued is the whole new tag list |
| `ModelIndex.IncomparableExactly` | src/core/implementation/qmodelindex_comparator.cpp:33-59 | On trees of any depth, the pairs the comparator does not order are exactly those of an ancestor and its descendant, or equal ones |
| `ModelIndex.BeforeTransitive` | src/core/implementation/qmodelindex_comparator.cpp:33-59 | The comparator is transitive |
| `ModelIndex.BeforeIrreflexive` | src/core/implementation/qmodelindex_comparator.cpp:33-59 | No index comes before itself |
| `ModelIndex.TieBreaksExactly` | src/core/implementation/qmodelindex_comparator.cpp:33-59 | Two ties do not give a third exactly when the index in the middle is an ancestor of two unrelated ones |
| `ModelIndex.StrictlyWeakExactly` | src/core/implementation/qmodelindex_comparator.cpp:33-59 | On a set of indexes the comparator is a strict weak order if and only if no member is an ancestor of two unrelated members |
| `ModelIndex.Compare` | src/core/implementation/qmodelindex_comparator.cpp:9-59 | The loop over both hierarchies decides by the first level at which they differ |
| `ModelIndex.SiblingsInOrder` | src/core/implementation/qmodelindex_comparator.cpp:23-29 | Below one parent the smaller row comes first, then the smaller column, internal id and model |
| `WalkOrder.ComparatorFollowsWalk` | src/core/implementation/qmodelindex_comparator.cpp:9-59 | Of two items of the pre-order walk, on trees of any depth, the comparator puts the earlier one first, or the earlier one is an ancestor of the other |
| `ItemWalk.ListAllBetween` | src/core/implementation/qmodelindex_selector.cpp:20-64 | The result is the pre-order walk from the first item to the second exactly when the second does not come first and no item on the way needs a climb of more than one level; otherwise it ends without reaching it |
| `ItemWalk.ListOnTwoLevels` | src/core/implementation/qmodelindex_selector.cpp:20-64 | On two-level models the listing is always that walk |
| `ItemWalk.WalkIsChained` | src/core/implementation/qmodelindex_selector.cpp:41-60 | The walk visits each item's pre-order successor in turn, on trees of any depth |
| `ItemWalk.StepIsNextExactly` | src/core/implementation/qmodelindex_selector.cpp:41-60 | The step of the code is the pre-order successor exactly when one level of climbing is enough |
| `ItemWalk.WalkIsDistinct` | src/core/implementation/qmodelindex_selector.cpp:20-64 | No item occurs twice in the walk |
| `WalkOrder.ItemsWalked` | src/core/implementation/qmodelindex_selector.cpp:20-64 | The walk visits all items of the model and nothing else |

## Left out

- Text of queries: the generators build the AST; quoting and Qt's `%n` substitution are not part of this model.
- Integer literals compared with a column are taken after the column's type affinity, and an unqualified `id` is `photos.id`.
- Empty flag sets, checksums and expressions: the generator asserts that they do not occur.
- `std::sort` and `std::stable_sort` are the stable sort by one key; sorting by id relies on ids being distinct.
- SQL `storeGroup` and `getGroupFor`: unfinished in the source, so deltas with a group are excluded from the SQL part and groups are proved on the memory backend.
- Reads in `getPhoto` are taken not to fail; a failing read makes the recorded difference wrong in the source.
- MySQL counts changed rather than matched rows in `numRowsAffected`; `updateOrInsert` is modelled with matched rows.
- Numbers are unbounded: row ids, counters and timer deadlines do not wrap.
- One order on texts is assumed for `QString::operator<` in memory and for text columns in SQL; the former compares UTF-16 code units, so characters beyond U+FFFF sort differently against U+E000 to U+FFFF.
- Texts with lone surrogates and checksums outside ASCII.
- `Transaction::rollback` called explicitly, and scopes that never begin.
- Stubs of the memory backend, and its ignored filter argument.
- Names of people are read by the filters but storing them (`store(PersonName)`) is not modelled, and neither are fingerprints.
- `TaskExecutor::eat` and the queue it rests on, which is not part of this model; both tasks queues model the executor by what it does with a task.
- The wait in `stop` and `waitForActiveTasks` is modelled by its effect only; the timer that decides when the updater's cache is flushed is left open, so flushing is stated for any sequence of deltas.
- Progress bars and the view task of the analyzer; photos that reach it carry both flags it looks at, as `flags.at` demands.
- `setDelay` and `setPatiece` during a burst, and timers that fire late.
- Setters called on the database thread, and `AsyncDatabase` after `closeConnections`.
- JSON text: the nested object is written to and read from a file unchanged; values are scalars.
- The cache map, its weak pointers and the lookups of `Utils` are steps of the photo cache's state machine on values, not a class; a weak pointer that expired is an id whose object is no longer live.
- JSON objects are values that writing returns changed, where the source writes through references.
- Columns other than the first in the item walk, and several models in one walk.
- QueryUniqueness.GeneratedOnceExactly: says which photos the rows of a query show. Fetching reads each row by the column name `photos.id`, which the queries of a lone role filter do not have; what Qt gives for a missing name is not part of this model.
- SqlBackend.ReadStoredTags: raw texts are read back as they are; `TagValue::fromRaw` converts each by the type of its tag, so a stored text that is not the raw form of a date, time or number reads back with another raw value.
- SqlUpdate.StoreData: when storing a column fails the difference may still be logged; the enclosing transaction then rolls it back, and nothing more is stated about that case.

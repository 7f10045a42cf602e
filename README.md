# Study app core, modelled in Dafny

This project models the sequential core of a local-first study app: the document store
(journeys, stages, tasks, habits, hero profile and attributes), its post-initialisation
migrations, the relational store of study plans and settings with its active-plan repair, the
legacy relational→document migration, backup import/export, the question and flashcard tables,
the coliseum battle and simulated exam flows, and the small gamification and formatting rules of
the pages and components. Each storage engine is a class whose fields are finite maps or row
sequences; clocks, random ids and foreign storage failures are parameters.

## Model

| member | source | states |
|---|---|---|
| JsText.NatToString | src/db/dexie/migrations/postInit.ts:21 | the decimal text of a number is non-empty, all digits, and ends in the number's last digit |
| JsText.NatToStringInjective | src/db/dexie/migrations/postInit.ts:21 | distinct numbers have distinct decimal texts |
| JsText.DigitsValueOfNatToString | src/db/dexie/migrations/postInit.ts:21 | reading the decimal text back gives the number (round trip) |
| JsText.DigitsSplitUnique | src/db/dexie/migrations/postInit.ts:21 | two digit strings joined by a separator that starts with a non-digit split in only one way |
| DexieStore.SortedKeysOrdered | src/db/dexie/migrations/postInit.ts:13 | `toArray` order: every primary key appears once, in strictly ascending order |
| DexieStore.AscendingKeys | src/db/dexie/migrations/postInit.ts:13 | the loop returns the primary keys in ascending order |
| PostInit.CanonicalStageIdInjective | src/db/dexie/migrations/postInit.ts:21 | `stage--{journeyId}--{index}` determines journey and index |
| PostInit.Put | src/db/dexie/migrations/postInit.ts:24 | a record assignment sets the key, leaves the others, keeps an existing key's position and appends a new one |
| PostInit.StageRenamesLookup | src/db/dexie/migrations/postInit.ts:17-35 | an old id is mapped iff some stage carrying it is not canonical, and then to the canonical id of the last such stage |
| PostInit.StageRenamesEmpty | src/db/dexie/migrations/postInit.ts:23-25 | the mapping is empty iff every stage id is already canonical |
| PostInit.NormalizeJourneyStages | src/db/dexie/migrations/postInit.ts:16-35 | the loop gives every stage its canonical id, builds the old→new mapping, and `hasChanges` iff some id was not canonical |
| PostInit.RenameHabitsAtOnce | src/db/dexie/migrations/postInit.ts:42-51 | renaming every old id simultaneously keeps the habit keys |
| PostInit.RenameHabitsSequential | src/db/dexie/migrations/postInit.ts:42-51 | the as-written rename, one old id at a time, keeps the habit keys |
| PostInit.SequentialAgreesWhenDisjoint | src/db/dexie/migrations/postInit.ts:42-51 | one-at-a-time and simultaneous renames agree when no new id is also an old id |
| PostInit.SwappedStageIdsRenameTwice | src/db/dexie/migrations/postInit.ts:42-51 | two stages with swapped ids: the as-written rename sends the habit back to its old stage id |
| PostInit.MigrateJourney | src/db/dexie/migrations/postInit.ts:15-52 | one journey, with the corrected simultaneous habit rename: written with normalised stages only if an id changed; habits referencing a renamed id follow it |
| PostInit.MigrateStageIds | src/db/dexie/migrations/postInit.ts:8-61 | the journey loop leaves the store equal to the stage-id migration of the old store, habits renamed by the corrected simultaneous rename |
| PostInit.StageIdsCanonicalAfterMigration | src/db/dexie/migrations/postInit.ts:20-35 | afterwards stage i of journey j has id `stage--{j}--{i}`, and the stage count is kept |
| PostInit.StageIdsDistinctAfterMigration | src/db/dexie/migrations/postInit.ts:20-35 | afterwards no two stages in the store share an id |
| PostInit.JourneyWrittenOnlyIfChanged | src/db/dexie/migrations/postInit.ts:23-39 | a journey changes iff some stage id was not canonical, and then its `updatedAt` is the run's time |
| PostInit.CanonicalStageUnchanged | src/db/dexie/migrations/postInit.ts:23-34 | a stage whose id is already canonical is kept as it was |
| PostInit.StageIdMigrationIdempotent | src/db/dexie/migrations/postInit.ts:23-38 | running the migration a second time changes nothing |
| PostInit.HabitsWithoutRenamedStageUntouched | src/db/dexie/migrations/postInit.ts:42-51 | a habit whose stage id no journey renames is untouched |
| PostInit.HabitFollowsItsStage | src/db/dexie/migrations/postInit.ts:5-6 | a habit on a renamed stage gets the stage's new id and `journeyId = String(journey.id)` |
| PostInit.SyncedTaskId | src/db/dexie/migrations/postInit.ts:80 | the flat row id is the task's own id when it has one, never empty |
| PostInit.UpsertAllKeys | src/db/dexie/migrations/postInit.ts:83-99 | upsert by id: the keys afterwards are the old keys plus the written ids; unwritten rows are unchanged |
| PostInit.UpsertAllLastWins | src/db/dexie/migrations/postInit.ts:93-99 | a row holds every required property of the last row written with its id |
| PostInit.UpsertAllKeepsIds | src/db/dexie/migrations/postInit.ts:85-98 | every row stays stored under its own id |
| PostInit.SyncStageTasks | src/db/dexie/migrations/postInit.ts:76-100 | the task loop upserts the rows of one stage in order |
| PostInit.SyncTasksFromJourneys | src/db/dexie/migrations/postInit.ts:67-110 | the nested loops leave the task table equal to the upsert of every embedded task, journeys in key order |
| PostInit.JourneyRowsExactly | src/db/dexie/migrations/postInit.ts:75-91 | the rows written for a journey are exactly its embedded tasks with id, stage id and journey id set |
| PostInit.SyncRowsAreEmbeddedTasks | src/db/dexie/migrations/postInit.ts:74-91 | the rows written are exactly the embedded tasks of all journeys |
| PostInit.TasksAfterSync | src/db/dexie/migrations/postInit.ts:83-99 | afterwards the keys are the old keys plus the embedded ids; rows no embedded task names are unchanged |
| PostInit.SyncedRowFromEmbeddedTask | src/db/dexie/migrations/postInit.ts:85-95 | a row an embedded task names carries that task's stage id, journey id and required fields |
| PostInit.SyncKeepsKeysMatchingIds | src/db/dexie/migrations/postInit.ts:85-98 | the sync keeps every task stored under its own id |
| PostInit.SyncTwiceAddsNoRows | src/db/dexie/migrations/postInit.ts:83-99 | re-running the sync adds no row |
| PostInit.RunPostInitMigrations | src/db/dexie/migrations/postInit.ts:115-127 | stage ids are migrated (corrected simultaneous habit rename) strictly before tasks are synced; a failure rolls back its transaction and is rethrown |
| PostInit.TaskRowsReferenceCanonicalStages | src/db/dexie/migrations/postInit.ts:119-120 | after both passes every task row is untouched or names a canonical stage of the journey it names |
| DexieStore.Least | src/db/dexie/migrations/postInit.ts:13 | the least key of a non-empty numeric store is in the store and below every key |
| DexieStore.SortedKeys | src/db/dexie/migrations/postInit.ts:13 | the key order of a numeric store lists as many keys as the store holds |
| DexieStore.SortedKeysWithin | src/db/dexie/migrations/postInit.ts:13 | every listed key is a key of the store |
| DexieStore.SortedKeysCover | src/db/dexie/migrations/postInit.ts:13 | every key of the store is listed |
| DexieStore.SortedKeysAscending | src/db/dexie/migrations/postInit.ts:13 | the listed keys strictly ascend |
| DexieStore.JourneyDeleted | src/hooks/dexie/useJourneys.ts:36-44 | deleting a journey removes it and exactly the tasks and habits whose `journeyId` is its id as text; everything else is unchanged |
| DexieStore.CompletedTask | src/hooks/dexie/useTasks.ts:51-59 | a completed task is marked completed now, with `actualMinutes || 0`, and no other field changes |
| DexieStore.HeroTaskDatabase.constructor | src/db/dexie/database.ts:55-71 | a freshly opened database has empty stores and every key generator at 1 |
| DexieInit.InitializeDefaultProfileAsWritten | src/db/dexie/database.ts:77-94 | the as-written `initializeDefaultProfile`: a failed step changes nothing; otherwise `get(1)` and, when missing, `add` under the next generated key |
| DexieInit.DefaultProfileDuplicatedAsWritten | src/db/dexie/database.ts:79-88 | from an empty store whose generator is at 2, two initialisations leave two default profiles and none under key 1 |
| DexieInit.ProfilesAfterInit | src/db/dexie/database.ts:77-94 | the intended initialisation: key 1 always holds a profile, an existing one is kept, otherwise the default profile is put under key 1 and nothing else changes |
| DexieInit.ProfileInitIdempotent | src/db/dexie/database.ts:77-94 | initialising again, at any later time, changes nothing, and at most one profile is added |
| DexieInit.InitializeDefaultProfile | src/db/dexie/database.ts:77-94 | the corrected operation: a failed step changes nothing; otherwise the profile store becomes `ProfilesAfterInit` of the old one; the store stays valid |
| DexieInit.BaseAttributeFor | src/db/dexie/database.ts:8-53 | each base attribute carries its own id, level 1, no XP and 100 XP to the next level |
| DexieInit.BaseStoreNonEmpty | src/db/dexie/database.ts:96-105 | the seeded attribute store is not empty |
| DexieInit.BaseStoreContents | src/db/dexie/database.ts:96-105 | the seeded store holds exactly knowledge, focus, consistency and speed, each under its own id, at level 1 with no XP |
| DexieInit.BaseAttributesSeeded | src/db/dexie/database.ts:96-111 | an empty attribute store is seeded with the four base attributes; a non-empty one is kept; seeding again changes nothing |
| DexieInit.InitializeHeroAttributes | src/db/dexie/database.ts:96-111 | a failed step leaves the attribute store as it was; otherwise the store becomes what the seeding rule gives |
| DexieInit.RunPostInitMigrationsOnce | src/db/dexie/database.ts:114-132 | with the flag set nothing changes; otherwise a successful run migrates stage ids (corrected simultaneous habit rename), then syncs tasks, then sets the flag; a failed run leaves the flag unset and the store rolled back: unchanged when the stage-id step fails, stage ids migrated when the task sync fails |
| DexieInit.InitializeDexieDB | src/db/dexie/database.ts:135-149 | an open failure changes nothing; otherwise the profile is seeded (corrected key-1 seeding) unless that step fails, the attributes are seeded unless that step fails, both failures being swallowed, and the result is an error iff the post-init migrations fail; from the seeded store, success migrates stage ids (corrected simultaneous habit rename) and then syncs tasks, a failed stage-id step leaves the seeded store, and a failed task sync leaves it with stage ids migrated |
| UseJourneys.NewJourney | src/hooks/dexie/useJourneys.ts:16-24 | the journey added carries the caller's data with `createdAt = updatedAt = now` |
| UseJourneys.CreateJourney | src/hooks/dexie/useJourneys.ts:16-27 | the journey is stored under the next generated key, which is returned and was not in use |
| UseJourneys.DeleteJourney | src/hooks/dexie/useJourneys.ts:36-47 | the transaction leaves the store as `JourneyDeleted` describes |
| UseJourneys.NothingReferencesDeletedJourney | src/hooks/dexie/useJourneys.ts:36-44 | afterwards neither the journey nor any task or habit naming it remains |
| UseJourneys.PatchedStage | src/hooks/dexie/useJourneys.ts:53-57 | the patched stage takes the patch's fields and `updatedAt = now`, and keeps its id unless the patch renames it |
| UseJourneys.PatchIsIdempotent | src/hooks/dexie/useJourneys.ts:53-57 | patching a stage twice with the same patch is patching it once |
| UseJourneys.StagesUpdated | src/hooks/dexie/useJourneys.ts:53-57 | the list keeps its length; stages with the id are patched, the others are unchanged |
| UseJourneys.UnknownStageChangesNothing | src/hooks/dexie/useJourneys.ts:53-57 | with no stage of that id, the stage list is unchanged |
| UseJourneys.StageIdsKept | src/hooks/dexie/useJourneys.ts:53-57 | a patch that does not rename keeps every stage id in place |
| UseJourneys.JourneysWithStageUpdated | src/hooks/dexie/useJourneys.ts:49-59 | the journey keys are kept; the named journey gets the updated stages and a new `updatedAt`; the others are unchanged |
| UseJourneys.UpdateStage | src/hooks/dexie/useJourneys.ts:49-60 | a missing journey is left alone; otherwise the store is updated as `JourneysWithStageUpdated` says |
| UseJourneys.CompleteStage | src/hooks/dexie/useJourneys.ts:62-67 | completing a stage is updating it with status completed and 0 completed hours |
| UseJourneys.CompleteStageMarksStage | src/hooks/dexie/useJourneys.ts:62-67 | afterwards every stage with the id is completed with 0 hours and a new `updatedAt`; the others are unchanged |
| UseTasks.TaskIdFor | src/hooks/dexie/useTasks.ts:31 | a new task id starts with `task--` |
| UseTasks.TaskIdsDifferInTime | src/hooks/dexie/useTasks.ts:31 | two tasks of one stage created at different milliseconds get different ids |
| UseTasks.NewTask | src/hooks/dexie/useTasks.ts:33-38 | the task added carries the caller's data, the generated id and `createdAt = updatedAt` |
| UseTasks.CreateTask | src/hooks/dexie/useTasks.ts:29-42 | `add` succeeds iff the id is free, and then stores the task and returns its id; otherwise nothing changes |
| UseTasks.PatchedTask | src/hooks/dexie/useTasks.ts:44-48 | the patched task keeps its id, takes the patch's fields and `updatedAt = now` |
| UseTasks.TasksUpdated | src/hooks/dexie/useTasks.ts:44-48 | `update` patches the stored task, leaves a missing id missing and the other tasks unchanged |
| UseTasks.UpdateTask | src/hooks/dexie/useTasks.ts:44-49 | the operation leaves the store as `TasksUpdated` says |
| UseTasks.UpdateIsIdempotent | src/hooks/dexie/useTasks.ts:44-48 | updating twice with the same patch is updating once |
| UseTasks.CompleteMatchesPersistence | src/hooks/dexie/useTasks.ts:51-59 | the patch `completeTask` writes gives the same record as the completed-task rule |
| UseTasks.CompleteTask | src/hooks/dexie/useTasks.ts:51-62 | only the named task changes, and it becomes completed now with `actualMinutes || 0` |
| UseTasks.UncompletedTask | src/hooks/dexie/useTasks.ts:64-69 | an uncompleted task is not completed, has no completion time, keeps its minutes and gets a new `updatedAt` |
| UseTasks.UncompleteTask | src/hooks/dexie/useTasks.ts:64-70 | only the named task changes, as `UncompletedTask` says |
| UseTasks.UncompleteUndoesComplete | src/hooks/dexie/useTasks.ts:51-70 | uncompleting a completed task restores it except for the minutes written and `updatedAt` |
| UseTasks.DeleteTask | src/hooks/dexie/useTasks.ts:72-75 | exactly the named task is removed |
| UseHabits.NewHabit | src/hooks/dexie/useHabits.ts:24-28 | the habit added carries the caller's data with `createdAt = updatedAt = now` |
| UseHabits.CreateHabit | src/hooks/dexie/useHabits.ts:21-31 | `add` succeeds iff the habit id is free, and then stores the new habit; otherwise nothing changes |
| UseHabits.PatchedHabit | src/hooks/dexie/useHabits.ts:33-37 | a `Partial<Habit>` patch: each field it gives (stage, journey, type, title, description, frequency, streaks, last completion, active flag, creation time) replaces the stored one, an optional field can be cleared, the fields it leaves out stay, the id is kept and `updatedAt = now` |
| UseHabits.PatchIsIdempotent | src/hooks/dexie/useHabits.ts:33-37 | applying the same patch twice is applying it once |
| UseHabits.PatchReachesAnyHabit | src/hooks/dexie/useHabits.ts:33-37 | any habit with the same id, optional fields cleared included, is reachable by one patch |
| UseHabits.HabitsUpdated | src/hooks/dexie/useHabits.ts:33-37 | `update` applies any `Partial<Habit>` patch to the stored habit, leaves a missing id missing and the other habits unchanged |
| UseHabits.UpdateHabit | src/hooks/dexie/useHabits.ts:33-38 | `updateHabit(id, updates)` leaves the store as `HabitsUpdated` says, for any patch of the non-key fields |
| UseHabits.CompletionPatch | src/hooks/dexie/useHabits.ts:53-60 | the streak grows by one, the longest streak is the larger of the old longest and the new streak, and the completion time is now |
| UseHabits.HabitsAfterCompletion | src/hooks/dexie/useHabits.ts:51-61 | a stored habit gains one day of streak, never above its longest streak, which never shrinks; other habits are unchanged |
| UseHabits.CompletionsAfter | src/hooks/dexie/useHabits.ts:44-48 | the completion record is added under the next key with the habit id, the time and the notes |
| UseHabits.AddCompletion | src/hooks/dexie/useHabits.ts:44-48 | `add` stores the record under the generator's key and advances the generator |
| UseHabits.CompleteHabit | src/hooks/dexie/useHabits.ts:40-64 | a completion is always recorded, and a stored habit's streak is updated as `HabitsAfterCompletion` says |
| UseHabits.ResetHabitStreak | src/hooks/dexie/useHabits.ts:66-70 | the reset is the update that sets the streak to 0 |
| UseHabits.ResetKeepsLongestStreak | src/hooks/dexie/useHabits.ts:66-70 | a reset zeroes the streak and keeps everything else, the longest streak included |
| UseHabits.CompletionKeepsStreaksConsistent | src/hooks/dexie/useHabits.ts:51-61 | completing keeps every streak within its longest streak |
| UseHabits.ResetKeepsStreaksConsistent | src/hooks/dexie/useHabits.ts:66-70 | resetting keeps every streak within its longest streak |
| UseHabits.HabitDeleted | src/hooks/dexie/useHabits.ts:72-76 | deleting removes the habit and exactly its completions; everything else is unchanged |
| UseHabits.DeleteHabit | src/hooks/dexie/useHabits.ts:72-79 | the transaction leaves the store as `HabitDeleted` says |
| UseHabits.HabitDeleteIsIdempotent | src/hooks/dexie/useHabits.ts:72-76 | deleting twice deletes no more than deleting once |
| UseHabits.FirstInDay | src/hooks/dexie/useHabits.ts:97-101 | the scan finds a completion of the habit inside the day iff one exists, and what it finds is one |
| UseHabits.WasCompletedToday | src/hooks/dexie/useHabits.ts:91-104 | the answer is true iff some completion of the habit lies in `[today, tomorrow)` |
| UseHabits.CompletionCountsToday | src/hooks/dexie/useHabits.ts:40-48 | a completion recorded during the day makes the habit count as completed that day |
| UseHabits.DeletedHabitNeverCompleted | src/hooks/dexie/useHabits.ts:72-76 | after deletion the habit never counts as completed, whatever the day |
| UseHeroProfile.LevelReached | src/hooks/dexie/useHeroProfile.ts:26-29 | the level-up loop ends at the least level at or above the start with `totalXp < level * 100` |
| UseHeroProfile.ProfileAfterXp | src/hooks/dexie/useHeroProfile.ts:21-35 | the total moves by the amount, the level never drops and ends above the total, the threshold is `level * 100` after a level-up and kept otherwise, nothing else but `updatedAt` changes |
| UseHeroProfile.LevelReachedMonotone | src/hooks/dexie/useHeroProfile.ts:26-29 | more XP never gives a lower level |
| UseHeroProfile.LevelReachedInSteps | src/hooks/dexie/useHeroProfile.ts:26-29 | levelling up in two steps of growing totals reaches the same level as in one step |
| UseHeroProfile.AddXp | src/hooks/dexie/useHeroProfile.ts:18-41 | nothing changes without profile 1; otherwise profile 1 becomes `ProfileAfterXp` |
| UseHeroProfile.PatchedProfile | src/hooks/dexie/useHeroProfile.ts:9-15 | every field the patch gives replaces the stored one, an optional title or avatar can be set or cleared, the others are kept, and `updatedAt = now` |
| UseHeroProfile.PatchReachesAnyProfile | src/hooks/dexie/useHeroProfile.ts:9-15 | one patch turns any profile into any other, up to the `updatedAt` stamp |
| UseHeroProfile.AddXpPatchesThreeFields | src/hooks/dexie/useHeroProfile.ts:31-35 | `addXp` is the update that writes exactly the total, the level and the threshold |
| UseHeroProfile.UpdateHeroProfile | src/hooks/dexie/useHeroProfile.ts:9-16 | nothing changes without profile 1; otherwise profile 1 is patched |
| UseHeroProfile.ResetProfileOf | src/hooks/dexie/useHeroProfile.ts:44-49 | the reset profile has no XP, level 1 and 100 to the next level; other fields are kept |
| UseHeroProfile.ResetIsConsistent | src/hooks/dexie/useHeroProfile.ts:26-49 | a reset profile is already levelled: gaining no XP changes nothing but the stamp |
| UseHeroProfile.ResetProfile | src/hooks/dexie/useHeroProfile.ts:43-50 | a missing profile 1 stays missing; otherwise it is reset |
| UseAttributeSystem.LevelUp | src/hooks/dexie/useAttributeSystem.ts:35-39 | the loop ends with the XP below the threshold and the level never lower; after a level-up the threshold is `level * 100`, otherwise it is kept |
| UseAttributeSystem.GainedAttribute | src/hooks/dexie/useAttributeSystem.ts:31-47 | the XP is `max(0, xp + delta)`: `xp + delta` when that is not negative and 0 otherwise; the level never drops, even for a negative delta, the XP ends below the threshold, and only XP, level, threshold and stamp change |
| UseAttributeSystem.LevelUpTight | src/hooks/dexie/useAttributeSystem.ts:35-39 | once the threshold is the level's own, the loop stops at the first level whose threshold passes the XP |
| UseAttributeSystem.GainIsStable | src/hooks/dexie/useAttributeSystem.ts:31-47 | the result is already levelled: a further gain of 0 changes only the stamp |
| UseAttributeSystem.GoalsAfterCheck | src/hooks/dexie/useAttributeSystem.ts:65-81 | exactly the active goals of the attribute with `level >= targetLevel` and `xp >= targetXp` become inactive, stamped now; all other goals are unchanged |
| UseAttributeSystem.GoalCheckIdempotent | src/hooks/dexie/useAttributeSystem.ts:65-81 | checking again at the same level and XP changes nothing |
| UseAttributeSystem.CheckedSoFarStep | src/hooks/dexie/useAttributeSystem.ts:72-81 | one more visited goal adds exactly that goal's check |
| UseAttributeSystem.UncheckedGoal | src/hooks/dexie/useAttributeSystem.ts:72-81 | a goal not yet visited is still as it was |
| UseAttributeSystem.CheckedAll | src/hooks/dexie/useAttributeSystem.ts:72-81 | once every goal has been visited the goals are `GoalsAfterCheck` |
| UseAttributeSystem.CheckAttributeGoals | src/hooks/dexie/useAttributeSystem.ts:65-82 | the loop over the goals leaves them as `GoalsAfterCheck` says |
| UseAttributeSystem.CheckGoalsInOrder | src/hooks/dexie/useAttributeSystem.ts:72-81 | visiting the goals in key order leaves them as `GoalsAfterCheck` says |
| UseAttributeSystem.CheckGoal | src/hooks/dexie/useAttributeSystem.ts:73-78 | one visited goal is closed when reached and left alone otherwise |
| UseAttributeSystem.AddAttributeXp | src/hooks/dexie/useAttributeSystem.ts:21-63 | a missing attribute changes nothing; otherwise the attribute gains XP as `GainedAttribute` says, exactly one history record with the delta is added under the next key, and the goals are checked at the new level and XP |
| UseAttributeSystem.GetTotalXp | src/hooks/dexie/useAttributeSystem.ts:117-119 | the total is 0 while loading and the sum of the attributes' XP otherwise |
| UseAttributeSystem.SumXpAppend | src/hooks/dexie/useAttributeSystem.ts:117-119 | the XP sum of two lists is the sum of their sums |
| UseAttributeSystem.GroupByAreaPartitions | src/hooks/dexie/useAttributeSystem.ts:122-129 | the three groups partition the attributes by area, keeping their count and their total XP |
| UseAttributeSystem.GroupByAreaMembers | src/hooks/dexie/useAttributeSystem.ts:125-128 | an attribute is in a group iff it is listed and has that group's area |
| UseAttributeSystem.GroupByAreaTotals | src/hooks/dexie/useAttributeSystem.ts:125-128 | the group sizes add up to the list's length and the group XP sums to the total |
| Backup.AsMap | src/db/dexie/backup.ts:28-35 | the store an array describes has exactly the keys of its rows, each record taken from one of its rows |
| Backup.AsMapOfDistinct | src/db/dexie/backup.ts:28-35 | rows with distinct keys describe a store of exactly that many records, each as listed |
| Backup.AsMapSize | src/db/dexie/backup.ts:28-35 | rows with distinct keys describe exactly as many records as there are rows |
| Backup.AsMapLookup | src/db/dexie/backup.ts:28-35 | each row with a distinct key is the record its key holds |
| Backup.AppendRow | src/db/dexie/backup.ts:28-35 | appending a row with a new key extends the described store by that record |
| Backup.Entries | src/db/dexie/backup.ts:28-35 | `toArray()` lists every record of a store exactly once |
| Backup.Keyed | src/db/dexie/backup.ts:30-33 | the records of a string-keyed store pair with their own `id` |
| Backup.Records | src/db/dexie/backup.ts:28-35 | the records of the rows are the rows' values, in order |
| Backup.RecordsOf | src/db/dexie/backup.ts:30-33 | the records of a store whose records sit under their ids list the store exactly |
| Backup.ExportDexieData | src/db/dexie/backup.ts:21-47 | the backup has version 1.0.0, the export time, and each array lists its store exactly |
| Backup.BulkAdded | src/db/dexie/backup.ts:90-128 | `bulkAdd` of no rows is a no-op; it fails iff two rows share a key or a row's key is taken; on success the old records stay and the keys are the old ones plus the rows' |
| Backup.Raised | src/db/dexie/backup.ts:90-128 | an explicit numeric key lifts the store's generator above it, never lowering it |
| Backup.Commit | src/db/dexie/backup.ts:63-129 | the transaction's commit installs every store and generator at once |
| Backup.ImportDexieData | src/db/dexie/backup.ts:52-137 | a backup without version or export time fails with the format error; the import succeeds iff every store's rows are accepted, after clearing when asked; a failure rolls every store back; the store stays valid |
| Backup.ListedRowsRebuild | src/db/dexie/backup.ts:74-128 | rows exported from a store are accepted into an empty store, which then equals the exported one |
| Backup.ListedRowsCollide | src/db/dexie/backup.ts:90-128 | rows exported from a non-empty store collide with that store |
| Backup.ReplaceImportRestoresExport | src/db/dexie/backup.ts:21-128 | importing an export with replace, into any database, restores exactly the exported stores (round trip) |
| Backup.MergeOfOwnExportFails | src/db/dexie/backup.ts:90-128 | merging a database's own export back into it fails as soon as any store holds a record |
| Backup.OneCollisionFails | src/db/dexie/backup.ts:63-129 | one store whose rows collide makes the whole merge fail |
| Backup.KeyedRowsMatchIds | src/db/dexie/backup.ts:100-118 | rows a successful import adds to a string-keyed store sit under their own ids |
| Backup.RowsBelowRaised | src/db/dexie/backup.ts:90-128 | numeric keys after a successful import stay below the raised generator |
| Backup.ImportKeepsIdsMatched | src/db/dexie/backup.ts:63-129 | a successful import keeps every string-keyed record under its own id |
| Backup.ImportKeepsKeysBelow | src/db/dexie/backup.ts:63-129 | a successful import keeps every numeric key below its store's generator |
| Backup.BackupStats | src/db/dexie/backup.ts:156-174 | the statistics are every store's record count, or `{}` when counting fails |
| Backup.ListedCount | src/db/dexie/backup.ts:28-35 | rows that list a store are as many as its records |
| Backup.ExportMatchesStats | src/db/dexie/backup.ts:21-47 | an export's arrays have exactly the lengths the statistics report |
| SessionPersistence.TruthyItem | src/utils/sessionPersistenceValidator.ts:22-23 | an item is read as present iff it is stored and non-empty, and then it is the stored text |
| SessionPersistence.CountCorrupted | src/utils/sessionPersistenceValidator.ts:27-33 | the corrupted count is at most the session count, and 0 iff every session has an id and a start time |
| SessionPersistence.CorruptedCount | src/utils/sessionPersistenceValidator.ts:27-33 | the `forEach` counts the sessions lacking an id or a start time |
| SessionPersistence.ValidateSessionPersistence | src/utils/sessionPersistenceValidator.ts:13-57 | a failed load or unparsable backup gives the all-zero report; otherwise the report holds the session count, the backup count (0 without a backup), the corrupted count and the last sync item |
| SessionPersistence.Synced | src/utils/sessionPersistenceValidator.ts:73-86 | the sessions a replay saves are complete backup sessions, no more than the backup holds |
| SessionPersistence.SyncedComplete | src/utils/sessionPersistenceValidator.ts:73-86 | every complete backup session whose save does not throw is saved |
| SessionPersistence.ForceSyncBackupSessions | src/utils/sessionPersistenceValidator.ts:60-100 | no backup: success, nothing changes; unparsable backup: failure, nothing changes; otherwise success, the complete sessions are saved, and the backup is removed and the sync time set iff at least one save succeeded |
| SessionPersistence.CompleteIds | src/utils/sessionPersistenceValidator.ts:111-119 | an id is a complete id iff some session with an id and a start time carries it |
| SessionPersistence.CountRemoved | src/utils/sessionPersistenceValidator.ts:111-119 | the cleanup never counts more sessions than there are |
| SessionPersistence.KeptOnePerId | src/utils/sessionPersistenceValidator.ts:111-119 | the sessions a cleanup keeps are exactly one per distinct complete id |
| SessionPersistence.CompleteIdsStep | src/utils/sessionPersistenceValidator.ts:111-119 | the complete ids grow by the last session's id exactly when it is complete |
| SessionPersistence.CorruptedAreRemoved | src/utils/sessionPersistenceValidator.ts:29-113 | every corrupted session is among those a cleanup would remove |
| SessionPersistence.CleanupSessions | src/utils/sessionPersistenceValidator.ts:103-132 | a failed load reports 0; otherwise the loop reports the invalid and repeated sessions |
| ActivePlanMigration.IdsOf | src/db/migration-active-plan.ts:65-72 | the id set of some rows holds exactly their ids and is no larger than the rows |
| ActivePlanMigration.RecentIds | src/db/migration-active-plan.ts:68-70 | the six most recent ids are at most six |
| ActivePlanMigration.KeepPlans | src/db/migration-active-plan.ts:65-73 | the delete keeps exactly the rows whose id is recent or is the active id, in order |
| ActivePlanMigration.PointAtPlan | src/db/migration-active-plan.ts:25 | saving the setting points `active_plan_id` at the plan |
| ActivePlanMigration.FindReferencingRow | src/db/migration-active-plan.ts:42-46 | the query finds a row iff some saved plan with a truthy id references the plan |
| ActivePlanMigration.MigrateActivePlanPersistence | src/db/migration-active-plan.ts:5-84 | with its two row reads stepping to the first row (corrected, first Finding on this file), the steps leave the settings, plans and saved plans as the repair describes |
| ActivePlanMigration.RepairFillsActiveSetting | src/db/migration-active-plan.ts:10-39 | afterwards a truthy `active_plan_id` setting exists iff one existed, the first active saved plan has a plan id, or a most recent plan was found; it then names that plan, and other settings are unchanged |
| ActivePlanMigration.RepairIsIdempotent | src/db/migration-active-plan.ts:10-15 | a second run changes nothing |
| ActivePlanMigration.DistinctIdsWithin | src/db/migration-active-plan.ts:65-73 | rows with distinct ids drawn from a set are no more than the set |
| ActivePlanMigration.KeepPlansUnique | src/db/migration-active-plan.ts:65-73 | the cleanup keeps plan ids distinct |
| ActivePlanMigration.MostRecentIsKept | src/db/migration-active-plan.ts:30-70 | the most recent plan is among the six most recent |
| ActivePlanMigration.CleanupKeepsAtMostSix | src/db/migration-active-plan.ts:61-77 | when the setting came from the most recent plan, the cleanup leaves at most six plans (or none deleted) |
| ActivePlanMigration.CleanupKeepsRecentPlans | src/db/migration-active-plan.ts:34-77 | after the cleanup exactly the six most recent plans remain, and the setting names one of them |
| ActivePlanMigration.CollisionLeavesNoActiveRow | src/db/migration-active-plan.ts:46-54 | when a saved row already uses the plan's id without referencing the plan, the insert fails after the deactivation: no saved plan stays active and no plan is deleted |
| ActivePlanMigration.CreatedRowIsOnlyActive | src/db/migration-active-plan.ts:46-54 | a created `saved_plans` row is the only active one, named `Plano Atual`, pointing at the chosen plan, and saved ids stay distinct |
| ActivePlanMigration.AppendedRowFirstActive | src/db/migration-active-plan.ts:48-54 | after every row is deactivated an appended active row is the first active one |
| SqlStore.TruthySetting | src/utils/sqlitePersistence.ts:88-89 | a setting is read as present iff it is stored and non-empty, and then it is the stored text |
| SqlStore.LoadPlan | src/utils/sqlitePersistence.ts:91-92 | a plan is found iff some row carries the id, and then it is a stored plan with that id |
| SqlStore.ByRecency | src/utils/sqlitePersistence.ts:116 | `ORDER BY updated_at DESC` reorders the rows: same length, same rows |
| SqlStore.MostRecent | src/utils/sqlitePersistence.ts:116-117 | `LIMIT 1` finds a row iff there is any |
| SqlStore.MostRecentIsLatest | src/utils/sqlitePersistence.ts:116-117 | the row found is stored and no row was updated later |
| SqlStore.ReplacePlanRow | src/utils/sqlitePersistence.ts:54 | `INSERT OR REPLACE` ends with the saved row, after exactly the old rows with another plan id; at most one row is added |
| SqlStore.Without | src/utils/sqlitePersistence.ts:54 | deleting by plan id keeps exactly the rows with other ids |
| SqlStore.ReplaceSavedRow | src/utils/sqlitePersistence.ts:66-69 | `INSERT OR REPLACE` ends with the new row, after exactly the old rows with other ids |
| SqlStore.SavedWithout | src/utils/sqlitePersistence.ts:66-69 | deleting by saved-plan id keeps exactly the rows with other ids, and changes nothing when no row has it |
| SqlStore.SavedWithoutUnique | src/utils/sqlitePersistence.ts:66-69 | deleting by id keeps saved-plan ids distinct |
| SqlStore.SavedWithoutLast | src/utils/sqlitePersistence.ts:66-69 | deleting the key only an appended row holds removes exactly that row |
| SqlStore.DeactivateAll | src/utils/sqlitePersistence.ts:63 | every saved plan is kept, in place, made inactive |
| SqlStore.FirstActive | src/utils/sqlitePersistence.ts:104-105 | the first active row is found iff some row is active, and no earlier row is active |
| SqlitePersistence.ActivePlanId | src/utils/sqlitePersistence.ts:48 | the plan id is never empty, and is `plan.id` when that is set |
| SqlitePersistence.ExactlyOneActiveRow | src/utils/sqlitePersistence.ts:63-69 | after a save exactly one saved plan is active: the last, which points at the plan |
| SqlitePersistence.ActivationIdempotent | src/utils/sqlitePersistence.ts:66-69 | saving the same plan id again changes nothing, so adds no row |
| SqlitePersistence.ActivationKeepsUniqueIds | src/utils/sqlitePersistence.ts:66-69 | the save keeps `saved_plans` ids distinct |
| SqlitePersistence.SaveActiveStudyPlan | src/utils/sqlitePersistence.ts:45-80 | the plan is stored under its id, the setting names that id, and `saved_plans` is deactivated and upserted unless that step throws |
| SqlitePersistence.ActivePlanSource | src/utils/sqlitePersistence.ts:82-137 | with the Strategy 3 read stepped (corrected, Finding on this file): the load returns a stored plan, or null exactly when no strategy applies |
| SqlitePersistence.LoadActiveStudyPlan | src/utils/sqlitePersistence.ts:82-137 | with the Strategy 3 read stepped, the load returns the plan of the first strategy that finds one, and only the last strategy writes the setting |
| SqlitePersistence.LoadFindsAPlanIffAnyStored | src/utils/sqlitePersistence.ts:82-137 | with the Strategy 3 read stepped and every plan id set, a plan is found iff any plan is stored |
| SqlitePersistence.SettingTakesPrecedence | src/utils/sqlitePersistence.ts:88-97 | a setting naming a stored plan wins, and that plan is returned |
| SqlitePersistence.RepairedLoadIsStable | src/utils/sqlitePersistence.ts:120-127 | with the Strategy 3 read stepped, after the repair the next load takes the first strategy and returns the same plan |
| SqlitePersistence.PlanFromMostRecentAsWritten | src/utils/sqlitePersistence.ts:114-129 | as written, the last strategy never finds a plan: its `getAsObject()` reads no row |
| SqlitePersistence.ActivePlanSourceAsWritten | src/utils/sqlitePersistence.ts:82-137 | as written, the load never takes the last strategy, and whenever it finds a plan it agrees with the stepped load |
| SqlitePersistence.UnsteppedReadMissesRecentPlan | src/utils/sqlitePersistence.ts:113-135 | when neither the setting nor an active saved row names a stored plan but plans with ids exist, the code as written returns null and leaves the setting alone, while the stepped load returns the most recent plan and points the setting at it |
| SqlitePersistence.OnlyLastStrategyWrites | src/utils/sqlitePersistence.ts:88-111 | a load that does not reach the last strategy writes nothing |
| SqlitePersistence.SaveThenLoad | src/utils/sqlitePersistence.ts:45-97 | saving a plan as active and loading gives back that plan, through the setting |
| SqlitePersistence.LoadPlanFindsLast | src/utils/sqlitePersistence.ts:54-91 | a plan appended under a fresh id is found by that id |
| SqlitePersistence.ActiveSettingAgreesAfterSave | src/utils/sqlitePersistence.ts:57-69 | after a successful save only the last saved plan is active, and its `plan_id` equals the setting |
| SqlitePersistence.SaveStudyPlan | src/utils/sqlitePersistence.ts:153-166 | on success the setting names the returned id; on error `''` is returned and nothing changes |
| SqlitePersistence.DeleteJourney | src/utils/sqlitePersistence.ts:342-359 | success iff the transaction does not fail, and then the journey and exactly its tasks and habits are removed; a failure changes nothing |
| SqlitePersistence.SavedTask | src/utils/sqlitePersistence.ts:364-370 | the saved task keeps the stored `createdAt` of an existing id, else takes now, and `updatedAt = now` |
| SqlitePersistence.SaveTask | src/utils/sqlitePersistence.ts:364-373 | `put` stores the saved task under its id |
| SqlitePersistence.SaveTaskTwiceKeepsCreation | src/utils/sqlitePersistence.ts:366-370 | saving a task twice keeps the first save's creation time |
| SqlitePersistence.CompleteTask | src/utils/sqlitePersistence.ts:393-403 | a stored task is completed now with `actualMinutes || 0`; a missing one stays missing |
| SqliteToDexie.SubjectsOf | src/db/migrations/sqliteToDexie.ts:71 | the subjects kept are exactly those of the plan |
| SqliteToDexie.TopicsOf | src/db/migrations/sqliteToDexie.ts:77 | the topics kept are exactly those of the subject |
| SqliteToDexie.SubtopicsOf | src/db/migrations/sqliteToDexie.ts:82 | the subtopics kept are exactly those of the topic |
| SqliteToDexie.SubtopicTasks | src/db/migrations/sqliteToDexie.ts:100-114 | one task per subtopic, in order, each made from its subtopic |
| SqliteToDexie.ConvertedStages | src/db/migrations/sqliteToDexie.ts:76-130 | one stage per subject of the plan |
| SqliteToDexie.StageIdsDistinct | src/db/migrations/sqliteToDexie.ts:118 | stages of one plan get distinct ids `stage--{plan.id}--{index}` |
| SqliteToDexie.ConvertedJourneyShape | src/db/migrations/sqliteToDexie.ts:76-145 | a plan converts iff its `focus_areas` parses; the journey keeps the legacy id, is titled by the plan name or `Plano Migrado`, is active with 0 hours, and has one not-started stage per subject with index-derived id, order and the subject's name |
| SqliteToDexie.TopicTasksSound | src/db/migrations/sqliteToDexie.ts:80-115 | every task of a stage comes from one of its topics or from a subtopic of one of them |
| SqliteToDexie.TopicTasksComplete | src/db/migrations/sqliteToDexie.ts:80-115 | every topic of a stage, and every subtopic of those topics, has its task in the stage |
| SqliteToDexie.ItemTaskBelongsToStage | src/db/migrations/sqliteToDexie.ts:85-113 | a task made from an item carries the stage's id and the plan's id |
| SqliteToDexie.StageTasksBelongToStage | src/db/migrations/sqliteToDexie.ts:80-130 | every task of stage `index` carries that stage's id and the plan's id |
| SqliteToDexie.JourneysAfterPlansKeep | src/db/migrations/sqliteToDexie.ts:36-40 | the plan loop keeps every stored journey, adds one journey per convertible plan under fresh keys, and advances the generator by that many |
| SqliteToDexie.JourneysAfterPlansComplete | src/db/migrations/sqliteToDexie.ts:36-40 | every plan that converts has its journey stored: a plan that fails does not stop the others |
| SqliteToDexie.MigrateStudyPlan | src/db/migrations/sqliteToDexie.ts:68-153 | the converted journey is added under the generator's key; a failed conversion adds nothing |
| SqliteToDexie.MigrateUserProgress | src/db/migrations/sqliteToDexie.ts:155-179 | an existing profile 1 is kept; otherwise the migrated profile is added under the generator's key |
| SqliteToDexie.SessionTask | src/db/migrations/sqliteToDexie.ts:186-200 | the task made from a session is keyed by the session's task id |
| SqliteToDexie.SessionsNeverOverwrite | src/db/migrations/sqliteToDexie.ts:181-212 | the session loop keeps every stored task and adds exactly the non-empty task ids the sessions name |
| SqliteToDexie.SessionTaskFromFirstSession | src/db/migrations/sqliteToDexie.ts:202-207 | each added task is made from the first session naming it |
| SqliteToDexie.SessionMigrationIdempotent | src/db/migrations/sqliteToDexie.ts:202-207 | replaying the same sessions adds nothing more |
| SqliteToDexie.MigrateStudySession | src/db/migrations/sqliteToDexie.ts:181-212 | a session adds its task unless it has no task id or the task exists |
| SqliteToDexie.MigratePlans | src/db/migrations/sqliteToDexie.ts:36-40 | the loop over the plans leaves the journeys as the plan rule says |
| SqliteToDexie.MigrateSessions | src/db/migrations/sqliteToDexie.ts:51-55 | the loop over the sessions leaves the tasks as the session rule says |
| SqliteToDexie.MigrateLegacyData | src/db/migrations/sqliteToDexie.ts:29-56 | the transaction migrates the plans, then the first progress row (if any, and only without a profile 1), then the sessions |
| SqliteToDexie.ShouldRunMigration | src/db/migrations/sqliteToDexie.ts:215-217 | the migration is due iff the flag is not `'true'` |
| SqliteToDexie.MigrateFromSQLiteOnce | src/db/migrations/sqliteToDexie.ts:8-66 | with the flag set nothing happens; a failed transaction is rethrown without setting the flag; otherwise the flag is set; the empty export leaves the stores unchanged |
| QuestionStore.OrNull | src/db/crud/questions.ts:43-50 | `value || null` keeps a non-empty text and stores anything else as `NULL` |
| Questions.NewQuestionRow | src/db/crud/questions.ts:30-52 | the inserted row has the given id and topic, room `triagem`, no question type, the given options, no answers yet, difficulty medium by default, and an explanation iff one was given non-empty |
| Questions.CreateQuestion | src/db/crud/questions.ts:8-93 | the insert, retried once after the `ALTER` statements, succeeds iff the retry does not throw; then the row is appended and its id returned, otherwise the table is unchanged and the error rethrown |
| Questions.QuestionById | src/db/crud/questions.ts:208-258 | the lookup finds a stored row with that id whose topic and subject exist, and finds nothing iff there is none |
| Questions.QuestionByIdAppended | src/db/crud/questions.ts:208-258 | a row appended under a fresh id is found by that id |
| Questions.CreatedQuestionIsFound | src/db/crud/questions.ts:8-258 | a created question is found afterwards, in room `triagem`, with its title, answer and topic |
| Questions.XpValues | src/db/crud/questions.ts:278-286 | the XP is 0 iff the answer is wrong or the question is missing, and otherwise one of 11, 13, 15, 16, 18, 20, 21, 23, 25 |
| Questions.XpMonotone | src/db/crud/questions.ts:280-286 | a harder question or a surer answer never earns less XP |
| Questions.TimeOrNull | src/db/crud/questions.ts:303 | `timeTaken || null` stores 0 seconds as `NULL` and keeps any other time |
| Questions.NewAttemptRow | src/db/crud/questions.ts:291-306 | the attempt row carries the ids, the verdict, the computed XP, and an error type iff one was given non-empty |
| Questions.RecordQuestionAttempt | src/db/crud/questions.ts:263-343 | the insert, retried once after the `ALTER`, appends the attempt row iff the retry does not throw, and otherwise nothing is appended; the id is returned iff the insert succeeds and, for an existing question, the enemy-room update after it does not throw (a failure there is rethrown with the row kept) |
| Questions.CorrectAnswerEarnsXp | src/db/crud/questions.ts:277-286 | a correct answer to an existing question earns at least 11 XP |
| Questions.WithoutId | src/db/crud/questions.ts:353 | the delete keeps exactly the rows with other ids |
| Questions.DeleteUnknownChangesNothing | src/db/crud/questions.ts:353 | deleting an id no row has changes nothing |
| Questions.DeleteIsIdempotent | src/db/crud/questions.ts:353 | deleting twice is deleting once |
| Questions.DeleteQuestion | src/db/crud/questions.ts:348-360 | true with the rows removed, or false with the table unchanged |
| Questions.RoomCount | src/db/crud/questions.ts:369-385 | a room's count is at most the table's size, and 0 iff no question is in that room |
| Questions.QuestionsCountByRoom | src/db/crud/questions.ts:365-393 | every room is reported, each with its count (0 when empty); all four are 0 on error |
| Questions.RoomCountsCoverTable | src/db/crud/questions.ts:369-385 | the four room counts add up to the number of questions |
| Questions.CreationGoesToTriage | src/db/crud/questions.ts:51-83 | a created question adds one to the triage count and leaves the other rooms alone |
| Questions.VerdictOf | src/db/crud/questions.ts:427-472 | an input fails for lack of a topic iff it has none and there is no default; otherwise it uses its own topic or the default, and is inserted only if that topic exists and the insert does not throw |
| Questions.BatchReportOf | src/db/crud/questions.ts:425-494 | `success + failed` is the number of inputs and of results, and there is one error line per failure |
| Questions.ResultsFollowInputs | src/db/crud/questions.ts:425-494 | result `j` reports input `j`: its title, success iff it was inserted, and then its question id |
| Questions.ReportedAppendsResult | src/db/crud/questions.ts:429-493 | each input appends one result, for itself, and keeps the earlier ones |
| Questions.BatchRows | src/db/crud/questions.ts:457-472 | the rows a batch inserts are at most the inputs, all in triage under existing topics |
| Questions.ReportStep | src/db/crud/questions.ts:425-494 | handling input `i` extends the report of the inputs before it by that input's verdict |
| Questions.RowsStep | src/db/crud/questions.ts:425-494 | handling input `i` appends its row, when inserted, to the rows before it |
| Questions.InsertTriedStep | src/db/crud/questions.ts:458-472 | input `i` reaches the insert, adding any missing column, iff its verdict is an insert attempt |
| Questions.ImportOne | src/db/crud/questions.ts:426-493 | one loop step decides the input's verdict and appends its row exactly when it is inserted |
| Questions.ImportEach | src/db/crud/questions.ts:425-494 | the loop returns the batch report and appends exactly the batch's rows |
| Questions.ImportQuestionsInBatch | src/db/crud/questions.ts:398-501 | a missing default topic throws its message before any insert; otherwise the report and rows are those of the batch |
| Questions.ImportStep | src/db/crud/questions.ts:425-494 | one step of the loop, as its body performs it, extends what the loop has done by that input |
| Questions.SecondOfThreeFails | src/db/crud/questions.ts:425-494 | three inputs with the second lacking a topic give 2 successes, 1 failure with `TopicId não fornecido`, and one error line |
| Flashcards.ScopeOf | src/db/crud/flashcards.ts:195-199 | the topic filter applies iff topic ids are given and the list is non-empty |
| Flashcards.Selected | src/db/crud/flashcards.ts:185-199 | a row is selected iff it is stored, its topic and subject exist, it is a flashcard row and it is in scope |
| Flashcards.CardOf | src/db/crud/flashcards.ts:211-237 | the card of a row has the row's id and topic, the title as question, the correct answer as answer, the topic's name, and the default review values, due one day later |
| Flashcards.CardsOf | src/db/crud/flashcards.ts:209-239 | one card per row, in the same order |
| Flashcards.OrderedRows | src/db/crud/flashcards.ts:70 | the selected rows, each once, newest first or oldest first as asked |
| Flashcards.OrderedCards | src/db/crud/flashcards.ts:185-239 | one fresh card per selected row, all in scope, in the requested creation order |
| Flashcards.CardsOfMembers | src/db/crud/flashcards.ts:76-106 | every row's card is among the cards of the rows |
| Flashcards.FlashcardsByTopic | src/db/crud/flashcards.ts:60-114 | the topic's flashcards, newest first, all of that topic; `[]` on a read error |
| Flashcards.FlashcardsByTopics | src/db/crud/flashcards.ts:119-176 | `[]` for no topics or on error; otherwise the flashcards of those topics, newest first |
| Flashcards.Limited | src/db/crud/flashcards.ts:201 | `LIMIT n` keeps the first `n` items, all of them when `n` is negative |
| Flashcards.FlashcardsReadyForReview | src/db/crud/flashcards.ts:181-247 | `[]` on error; otherwise the oldest flashcards in scope, oldest first, at most `maxCards` |
| Flashcards.DefaultLimitIsTwenty | src/db/crud/flashcards.ts:181 | without a limit at most twenty cards come back, the oldest ones, and all of them when there are no more than twenty |
| Flashcards.NewFlashcardRow | src/db/crud/flashcards.ts:26-47 | the row has the question as title, empty content, the answer, room `triagem`, type `flashcard`, and is read as a flashcard |
| Flashcards.CreateFlashcard | src/db/crud/flashcards.ts:8-55 | the single insert succeeds iff the metadata columns exist and it does not throw; then the row is appended and its id returned, otherwise nothing changes |
| Flashcards.CreatedFlashcardIsRead | src/db/crud/flashcards.ts:8-114 | a created flashcard in a topic whose subject exists is read back among that topic's cards |
| Flashcards.OptionlessQuestionReadsAsFlashcard | src/db/crud/flashcards.ts:69 | a question created without options has no type and no options, so it reads as a flashcard |
| Flashcards.WithoutFlashcard | src/db/crud/flashcards.ts:257 | the delete keeps exactly the rows that are not the typed flashcard with that id |
| Flashcards.DeleteFlashcard | src/db/crud/flashcards.ts:252-264 | true with the typed flashcard removed, or false with nothing changed |
| Flashcards.DeleteSparesLegacyCards | src/db/crud/flashcards.ts:257 | the delete removes a typed flashcard but spares an untyped row read as a flashcard |
| Flashcards.CountFlashcards | src/db/crud/flashcards.ts:273-288 | the statistics never count more rows than the table holds |
| Flashcards.Stats | src/db/crud/flashcards.ts:269-333 | the total counts the flashcard rows in scope, ready and learning equal the total, the other counters are 0; all zero on error |
| Flashcards.SelectedWithinCount | src/db/crud/flashcards.ts:185-288 | the joined rows a read selects never outnumber the rows the statistics count |
| Flashcards.ReviewQueueWithinStats | src/db/crud/flashcards.ts:181-306 | the review queue never holds more cards than the statistics' total for the same topics |
| ColiseumTypes.XpRewards | src/types/coliseum.ts:64-80 | only a rescue operation pays per enemy instead of a bonus |
| ColiseumTypes.TotalWarPaysDouble | src/types/coliseum.ts:64-80 | total war pays exactly twice a skirmish's base, bonus and perfect bonus, and every mode pays a perfect run extra |
| ColiseumTypes.TablesAreOrdered | src/types/coliseum.ts:83-94 | every default lies between its bounds, only a rescue operation has the all-zero (no limit) time entry, and every mode asks for at least one question |
| ColiseumTypes.Tier | src/types/coliseum.ts:97-106 | the classification is one of the eight names |
| ColiseumTypes.AtLeastWeakens | src/types/coliseum.ts:97-106 | an accuracy that reaches a threshold reaches every lower one |
| ColiseumTypes.TierCountsThresholds | src/types/coliseum.ts:97-106 | the tier is the number of thresholds (50, 60, 70, 80, 85, 90, 95) the accuracy reaches |
| ColiseumTypes.AtLeastMonotone | src/types/coliseum.ts:97-106 | a threshold reached by a lower accuracy is reached by a higher one |
| ColiseumTypes.TierMonotone | src/types/coliseum.ts:97-106 | a higher accuracy never gets a lower classification |
| ColiseumTypes.PerfectIsEmperor | src/types/coliseum.ts:98-105 | a perfect score is `Imperador do Coliseu` and a zero score `Recruta da Arena` |
| ColiseumEngine.Pool | src/utils/coliseumEngine.ts:44-54 | the gathered questions are exactly those of the enemies the subject filter keeps |
| ColiseumEngine.GatherQuestions | src/utils/coliseumEngine.ts:44-54 | the push loop over the enemies builds the pool in enemy order |
| ColiseumEngine.LoadColiseumQuestions | src/utils/coliseumEngine.ts:17-82 | a rescue takes every red-room question in some order; any other mode takes `min(questionsCount, pool)` questions out of the pool of all four rooms filtered by subject; a failure yields no questions |
| ColiseumEngine.DrawnFromSelectedSubjects | src/utils/coliseumEngine.ts:46-50 | every question a filtered battle draws belongs to an enemy of a selected subject |
| ColiseumEngine.CreateColiseumSession | src/utils/coliseumEngine.ts:87-105 | a new session has no answers, starts at question 0, is not completed, and has a time limit in whole minutes exactly when the effective limit is positive |
| ColiseumEngine.DefaultSessionTimes | src/utils/coliseumEngine.ts:91-102 | without an explicit limit a skirmish runs 1200 s, total war 10800 s, and a rescue has no clock |
| ColiseumEngine.XpBounds | src/utils/coliseumEngine.ts:110-152 | a rescue pays base plus 50 per correct answer plus 100 for a perfect run; a combat mode pays between its base and base + bonus + perfect bonus + 25, all of it for a perfect run under a minute per question |
| ColiseumEngine.XpMonotoneInCorrect | src/utils/coliseumEngine.ts:110-152 | more correct answers out of the same total never earn less XP |
| ColiseumEngine.Subjects | src/utils/coliseumEngine.ts:161 | the subject names of a tally keep its insertion order |
| ColiseumEngine.CountedNames | src/utils/coliseumEngine.ts:178-184 | counting a question adds its subject to the tally and no other |
| ColiseumEngine.CountedGood | src/utils/coliseumEngine.ts:178-184 | counting keeps each subject once, with a positive total and no more correct than total |
| ColiseumEngine.CountedBuckets | src/utils/coliseumEngine.ts:178-184 | counting keeps every bucket positive and with correct not above total |
| ColiseumEngine.CountedDistinct | src/utils/coliseumEngine.ts:178-184 | counting never creates a second entry for a subject |
| ColiseumEngine.CountedSum | src/utils/coliseumEngine.ts:181 | counting a question adds exactly one to the sum of subject totals |
| ColiseumEngine.TallyOf | src/utils/coliseumEngine.ts:169-191 | the statistics of a question list form a well-formed subject tally |
| ColiseumEngine.TallyAddsUp | src/utils/coliseumEngine.ts:169-191 | subject totals and difficulty totals each sum to the number of questions, and difficulty corrects sum to the correct answers |
| ColiseumEngine.SubjectTotalsAddUp | src/utils/coliseumEngine.ts:178-184 | the subject totals sum to the number of questions |
| ColiseumEngine.DifficultyTotalsAddUp | src/utils/coliseumEngine.ts:186-190 | the three difficulty buckets split the questions and the correct answers |
| ColiseumEngine.TallyNamesSubjects | src/utils/coliseumEngine.ts:178-180 | a subject has an entry exactly when some question has that subject |
| ColiseumEngine.SubjectPerformance | src/utils/coliseumEngine.ts:194-197 | each subject's accuracy is its correct over its total, never a division by zero |
| ColiseumEngine.DifficultyPerformance | src/utils/coliseumEngine.ts:199-204 | a difficulty's accuracy stays 0 exactly when it had no questions |
| ColiseumEngine.GenerateColiseumReport | src/utils/coliseumEngine.ts:157-223 | the report is the one built from the tally of the session's questions and answers |
| ColiseumEngine.CountAnswers | src/utils/coliseumEngine.ts:169-191 | the `forEach` loop computes the tally of all questions |
| ColiseumEngine.TallyStep | src/utils/coliseumEngine.ts:169-191 | one more question adds at most one correct answer and counts it under its subject and its difficulty |
| ColiseumEngine.ReportIsConsistent | src/utils/coliseumEngine.ts:157-223 | a report's correct answers never exceed its questions, its subject and difficulty figures add up, and a perfect session is `Imperador do Coliseu` |
| ColiseumEngine.UnansweredCountsWrong | src/utils/coliseumEngine.ts:170-171 | questions without a recorded answer count as wrong |
| ColiseumEngine.ValidateColiseumConfig | src/utils/coliseumEngine.ts:228-258 | a rescue is valid exactly when some question is available; another mode exactly when 10 <= count <= available and total war has at least 25; the first failing rule names the error |
| ColiseumEngine.ValidConfigFits | src/utils/coliseumEngine.ts:228-258 | a valid battle never asks for more questions than are available |
| ColiseumPage.DistinctSubjectsAreTheSubjects | src/pages/ColiseumPage.tsx:63-83 | the subject list has no repeats and names exactly the subjects of the enemies |
| ColiseumPage.SumQuestionsSplits | src/pages/ColiseumPage.tsx:75-79 | the question total of a concatenation is the sum of the parts' totals |
| ColiseumPage.TotalIsSumOfRooms | src/pages/ColiseumPage.tsx:68-79 | the questions available are the sum over the four rooms |
| ColiseumPage.SummarizeEnemies | src/pages/ColiseumPage.tsx:75-79 | the `forEach` loop counts the enemies, collects each subject once and sums the questions |
| ColiseumPage.AfterAnswer | src/pages/ColiseumPage.tsx:155-176 | answering an unknown question changes nothing; otherwise only that question's answer entry changes |
| ColiseumPage.FirstWithId | src/pages/ColiseumPage.tsx:158 | `find` stops at the first question with the id |
| ColiseumPage.AnswerRecorded | src/pages/ColiseumPage.tsx:161-170 | the recorded answer is the chosen option, correct exactly when it matches, keeps the review mark and takes the whole seconds since the start |
| ColiseumPage.AfterToggleReview | src/pages/ColiseumPage.tsx:184-204 | toggling adds an entry for the question if missing and leaves every other entry alone |
| ColiseumPage.ToggleTwice | src/pages/ColiseumPage.tsx:184-204 | a toggle flips the mark, and a second toggle restores the entry |
| ColiseumPage.CountdownTick | src/pages/ColiseumPage.tsx:46-53 | a tick finishes the battle exactly when no time or no positive time is left, and otherwise counts down one second |
| ColiseumPage.CountdownEndsOnTime | src/pages/ColiseumPage.tsx:43-58 | a countdown from n seconds reaches 0 after n ticks and the next tick finishes the battle |
| ColiseumPage.CountdownSteps | src/pages/ColiseumPage.tsx:46-53 | after k <= n ticks, n - k seconds remain |
| ColiseumPage.BattleConfig | src/pages/ColiseumPage.tsx:104-108 | the battle configuration keeps mode and count, has no time limit, and filters by subject exactly when some subject was chosen |
| ColiseumPage.ColiseumPageState.constructor | src/pages/ColiseumPage.tsx:27-35 | the page opens on mode selection with no mode, session, report or timer |
| ColiseumPage.ColiseumPageState.LoadEnemiesData | src/pages/ColiseumPage.tsx:60-93 | a successful load stores the enemy count, the distinct subjects and the question total of all rooms; a failure keeps the old summary |
| ColiseumPage.ColiseumPageState.SelectMode | src/pages/ColiseumPage.tsx:95-98 | choosing a mode stores it and moves to configuration |
| ColiseumPage.ColiseumPageState.StartBattle | src/pages/ColiseumPage.tsx:100-153 | without a mode nothing happens; an invalid configuration reports the validator's error; for a valid configuration the battle starts exactly when the load does not fail and the battle's pool is non-empty, and otherwise reports no questions; a started session is fresh, timed by the configuration, and its questions come from that pool |
| ColiseumPage.ColiseumPageState.AnswerQuestion | src/pages/ColiseumPage.tsx:155-182 | the session becomes the session with the answer recorded |
| ColiseumPage.ColiseumPageState.ToggleReview | src/pages/ColiseumPage.tsx:184-204 | the session becomes the session with the review mark toggled |
| ColiseumPage.ColiseumPageState.NavigateQuestion | src/pages/ColiseumPage.tsx:206-213 | the current index becomes the given one, unchecked |
| ColiseumPage.ColiseumPageState.FinishBattle | src/pages/ColiseumPage.tsx:215-234 | with a session, the report is generated from it and shown; without one nothing changes |
| ColiseumPage.ColiseumPageState.TimerTick | src/pages/ColiseumPage.tsx:43-58 | only a timed battle on screen ticks; the tick counts down and, when it finishes, shows the session's report |
| ColiseumPage.ColiseumPageState.BackToArena | src/pages/ColiseumPage.tsx:236-242 | returning to the arena clears mode, session, report and timer |
| ColiseumPage.ColiseumPageState.BackToConfig | src/pages/ColiseumPage.tsx:244-246 | returning to configuration changes only the view |
| ArenaInterface.FormatTime | src/components/coliseum/ArenaInterface.tsx:48-57 | the clock ends in a colon and the two-digit seconds |
| ArenaInterface.ClockHead | src/components/coliseum/ArenaInterface.tsx:49-56 | from one hour on the head is hours and padded minutes, below it the minutes alone |
| ArenaInterface.SecondsFieldSplits | src/components/coliseum/ArenaInterface.tsx:54-56 | the trailing `:ss` field determines both the head and the seconds |
| ArenaInterface.HoursHeadHasColon | src/components/coliseum/ArenaInterface.tsx:53-56 | an `h:mm` head never reads like a bare minute count |
| ArenaInterface.FormatTimeInjective | src/components/coliseum/ArenaInterface.tsx:48-57 | two different durations never show the same clock |
| ArenaInterface.ClockHeadInjective | src/components/coliseum/ArenaInterface.tsx:49-56 | the head and the seconds together determine the duration |
| ArenaInterface.HoursMinutesSeconds | src/components/coliseum/ArenaInterface.tsx:49-51 | a duration is its hours, minutes within the hour and seconds |
| ArenaInterface.CountersWithinEntries | src/components/coliseum/ArenaInterface.tsx:45-46 | neither the answered nor the marked counter exceeds the number of answer entries |
| ArenaInterface.SubsetNoLarger | src/components/coliseum/ArenaInterface.tsx:45-46 | a filtered set of entries is no larger than the entries |
| ArenaInterface.ShownSelection | src/components/coliseum/ArenaInterface.tsx:40-42 | the radio group shows an option exactly when the question has a chosen answer |
| ArenaInterface.HandleAnswerCounts | src/components/coliseum/ArenaInterface.tsx:59-63 | submitting a choice shows it on return, adds the question to the answered ones (one more unless it was already answered) and leaves the review marks alone |
| ArenaInterface.EmptySelectionIgnored | src/components/coliseum/ArenaInterface.tsx:60 | an empty selection submits nothing |
| ArenaInterface.NavigationStaysInside | src/components/coliseum/ArenaInterface.tsx:65 | the enabled previous and next buttons move to an existing question, and the last question is the one with index length - 1 |
| ArenaInterface.ArenaPanel.constructor | src/components/coliseum/ArenaInterface.tsx:36 | the panel starts with no selection |
| ArenaInterface.ArenaPanel.SyncWithSession | src/components/coliseum/ArenaInterface.tsx:40-42 | the selection becomes the stored answer of the current question, or empty |
| ArenaInterface.ArenaPanel.Choose | src/components/coliseum/ArenaInterface.tsx:128 | a click sets the selection |
| ArenaInterface.ArenaPanel.HandleAnswer | src/components/coliseum/ArenaInterface.tsx:59-63 | the returned session is the one after the callback with the current selection |
| BattleConfiguration.EffectiveMax | src/components/coliseum/BattleConfiguration.tsx:32 | the slider's maximum is the smaller of the mode's maximum and the questions available |
| BattleConfiguration.Clamped | src/components/coliseum/BattleConfiguration.tsx:34-38 | the effect pulls a count above the maximum down to it and leaves any other count alone |
| BattleConfiguration.ClampSettles | src/components/coliseum/BattleConfiguration.tsx:34-38 | once clamped, the effect changes nothing more |
| BattleConfiguration.Estimate | src/components/coliseum/BattleConfiguration.tsx:48-50 | a rescue shows no limit; other modes show the least whole number of minutes at least 1.5 per question |
| BattleConfiguration.StartablePassesValidation | src/components/coliseum/BattleConfiguration.tsx:71 | a combat count the button lets through, within the effective maximum, passes the engine's validation |
| BattleConfiguration.TooFewAvailableBlocksStart | src/components/coliseum/BattleConfiguration.tsx:32-38 | when fewer questions than the mode's minimum are available, a settled count never enables the button |
| BattleConfiguration.BattleConfigurationForm.constructor | src/components/coliseum/BattleConfiguration.tsx:29-30 | the form opens on the mode's default count with no subject |
| BattleConfiguration.BattleConfigurationForm.SetQuestionsCount | src/components/coliseum/BattleConfiguration.tsx:100 | the slider sets the count |
| BattleConfiguration.BattleConfigurationForm.SettleCount | src/components/coliseum/BattleConfiguration.tsx:34-38 | the effect clamps the count to the effective maximum |
| BattleConfiguration.BattleConfigurationForm.ToggleSubject | src/components/coliseum/BattleConfiguration.tsx:40-46 | a subject is removed if selected, appended otherwise |
| BattleConfiguration.BattleConfigurationForm.PressStart | src/components/coliseum/BattleConfiguration.tsx:180-182 | the button hands over count and subjects exactly when the battle can start |
| VictoryReport.DisplayedAfter | src/components/coliseum/VictoryReport.tsx:23-33 | the counter never shows more than the XP earned, shows all of it from the 60th tick on (at once for 0), and before that the floor of k/60 of it |
| VictoryReport.Reached | src/components/coliseum/VictoryReport.tsx:28 | the running total reaches the XP exactly after 60 ticks, or at once when the XP is 0 |
| VictoryReport.AnimateXp | src/components/coliseum/VictoryReport.tsx:19-37 | the interval shows 60 values (one for 0 XP), never decreasing, never above the XP, ending on the XP |
| VictoryReport.DisplayedMonotone | src/components/coliseum/VictoryReport.tsx:23-33 | a later tick never shows less than an earlier one |
| VictoryReport.FormatTime | src/components/coliseum/VictoryReport.tsx:45-49 | the text ends in `s` |
| VictoryReport.FormatTimeInjective | src/components/coliseum/VictoryReport.tsx:45-49 | two different durations never print alike |
| VictoryReport.AverageTime | src/components/coliseum/VictoryReport.tsx:119 | the average is the floor of time over questions, and there is none for zero questions |
| VictoryReport.GradeColorMonotone | src/components/coliseum/VictoryReport.tsx:51-56 | a better accuracy never gets a worse colour; a perfect score is green and zero correct is red |
| ExamSetup.AfterTopicToggle | src/components/exam/ExamSetup.tsx:38-44 | toggling a topic flips its membership and leaves every other topic and field alone |
| ExamSetup.AfterCountInput | src/components/exam/ExamSetup.tsx:170 | the count becomes the parsed number, or 0 when the input is empty, unparsable or 0 |
| ExamSetup.AfterTimeLimitCheck | src/components/exam/ExamSetup.tsx:183-184 | checking the box sets a limit and clearing it removes the limit |
| ExamSetup.AfterTimeLimitInput | src/components/exam/ExamSetup.tsx:197 | the minutes become the parsed number, or 30 when the input is empty, unparsable or 0 |
| ExamSetup.BuildConfig | src/components/exam/ExamSetup.tsx:64-76 | the configuration carries the topics only for a topic exam and the room only for a room exam, and every other field unchanged |
| ExamSetup.QuestionsInTopicsCountsGathered | src/components/exam/ExamSetup.tsx:46-54 | the sum of per-topic counts is the number of questions the exam page gathers for those topics |
| ExamSetup.QuestionsOfTopicsSplit | src/components/exam/ExamSetup.tsx:48-50 | gathering one more topic appends its questions |
| ExamSetup.AvailableIsLoaded | src/components/exam/ExamSetup.tsx:46-54 | the number shown as available is the number of questions the exam loads for the configuration built |
| ExamSetup.StartedExamHasRequestedCount | src/components/exam/ExamSetup.tsx:56-76 | an exam started from an enabled button has exactly the requested number of questions, all from the chosen pool, and is timed exactly when the box is checked |
| ExamSetup.InputsKeepTimeLimitShown | src/components/exam/ExamSetup.tsx:183-197 | the initial form and every input keep a checked box holding a non-zero limit |
| ExamSetup.UnparsableCountBlocksStart | src/components/exam/ExamSetup.tsx:56-62 | an empty or unparsable count disables the start button |
| ExamSetup.ExamSetupForm.constructor | src/components/exam/ExamSetup.tsx:21-27 | the form opens as a topic exam with no topics, the triage room, 10 questions, no limit and both shuffles on |
| ExamSetup.ExamSetupForm.HandleTopicToggle | src/components/exam/ExamSetup.tsx:38-44 | the form becomes the form with the topic toggled |
| ExamSetup.ExamSetupForm.SetQuestionCountFromInput | src/components/exam/ExamSetup.tsx:170 | the form becomes the form after the count input |
| ExamSetup.ExamSetupForm.SetTimeLimitChecked | src/components/exam/ExamSetup.tsx:184 | the form becomes the form after the checkbox |
| ExamSetup.ExamSetupForm.SetTimeLimitFromInput | src/components/exam/ExamSetup.tsx:197 | the form becomes the form after the minutes input |
| ExamSetup.ExamSetupForm.SelectKind | src/components/exam/ExamSetup.tsx:94 | only the exam type changes |
| ExamSetup.ExamSetupForm.SelectRoom | src/components/exam/ExamSetup.tsx:146 | only the room changes |
| ExamSetup.ExamSetupForm.SetShuffleQuestions | src/components/exam/ExamSetup.tsx:209 | only the question shuffle changes |
| ExamSetup.ExamSetupForm.SetShuffleOptions | src/components/exam/ExamSetup.tsx:220 | only the option shuffle changes |
| ExamSetup.ExamSetupForm.HandleStartExam | src/components/exam/ExamSetup.tsx:64-76 | the configuration handed over is the one built from the form |
| ExamResults.CorrectAnswers | src/components/exam/ExamResults.tsx:34 | the score never exceeds the number of answers |
| ExamResults.CountsSplitTheExam | src/components/exam/ExamResults.tsx:34-35 | in a consistent finished exam the correct count and the incorrect count (line 171) are non-negative and sum to the questions |
| ExamResults.PerformanceLevelMonotone | src/components/exam/ExamResults.tsx:39-46 | a better score never gets a lower level; a perfect score is `Excelente` and zero correct `Precisa Melhorar` |
| ExamResults.FormatTime | src/components/exam/ExamResults.tsx:48-53 | the text ends in a colon and the two-digit seconds |
| ExamResults.FormatTimeShowsWholeSeconds | src/components/exam/ExamResults.tsx:48-53 | two durations display alike exactly when they hold the same whole number of seconds |
| ExamResults.StatsAddUp | src/components/exam/ExamResults.tsx:55-69 | each difficulty counts no more correct than total, and the totals add up to the questions with a known difficulty |
| ExamResults.StatsCountGivenAnswers | src/components/exam/ExamResults.tsx:58-66 | the correct counts never exceed the correct answers among the first answers, one per question |
| ExamResults.StatsWithinScore | src/components/exam/ExamResults.tsx:55-69 | in a consistent exam the difficulty statistics never count more than the score |
| ExamResults.GetDifficultyStats | src/components/exam/ExamResults.tsx:55-69 | the `forEach` loop computes the statistics of all questions |
| SimulatedExam.QuestionsOfTopics | src/pages/SimulatedExam.tsx:65 | a question is gathered exactly when it belongs to one of the topics |
| SimulatedExam.StartShape | src/pages/SimulatedExam.tsx:60-88 | a started exam is active with no answers at question 0, holds at most the requested count, all from the loaded pool (none for a mixed exam), and a timed exam gets 60 seconds per minute |
| SimulatedExam.CountdownTick | src/pages/SimulatedExam.tsx:48-54 | a tick finishes the exam exactly when at most one second was left, and never leaves a negative time |
| SimulatedExam.TimerEndsOnTime | src/pages/SimulatedExam.tsx:44-58 | a timer started at m seconds counts down one per tick and after m ticks shows 0 and the results |
| SimulatedExam.InitialIsConsistent | src/pages/SimulatedExam.tsx:34-41 | the page starts consistent: answer i is for question i and correct exactly when it matches, an active exam is at the first unanswered question, and setup holds nothing |
| SimulatedExam.OperationsKeepConsistent | src/pages/SimulatedExam.tsx:60-124 | starting, submitting outside the results, resetting and ticking keep the exam consistent, and each submission in an active exam records one answer |
| SimulatedExam.LastSubmissionFinishes | src/pages/SimulatedExam.tsx:105-110 | submitting at the last question shows the results with every question answered |
| SimulatedExam.FormatTime | src/pages/SimulatedExam.tsx:126-130 | the clock ends in a colon and the two-digit seconds |
| SimulatedExam.FormatTimeInjective | src/pages/SimulatedExam.tsx:126-130 | two different times never display alike |
| SimulatedExam.SimulatedExamPage.constructor | src/pages/SimulatedExam.tsx:34-41 | the page opens in setup with nothing loaded |
| SimulatedExam.SimulatedExamPage.StartExam | src/pages/SimulatedExam.tsx:60-88 | the page becomes the state after `startExam` |
| SimulatedExam.SimulatedExamPage.SubmitAnswer | src/pages/SimulatedExam.tsx:90-111 | the page becomes the state after `submitAnswer`, which fails exactly when there is no current question |
| SimulatedExam.SimulatedExamPage.ResetExam | src/pages/SimulatedExam.tsx:117-124 | the page returns to the state after `resetExam` |
| SimulatedExam.SimulatedExamPage.TimerTick | src/pages/SimulatedExam.tsx:44-58 | the page becomes the state after one timer second |
| ActionableInsights.ShownInOrder | src/components/insights/ActionableInsights.tsx:77-85 | the card shows `min(maxInsights, n)` of the insights, by descending severity and actionable first within a severity, and sorting keeps every rank's insights in their original order |
| ActionableInsights.NothingHiddenOutranks | src/components/insights/ActionableInsights.tsx:77-85 | no insight left off the card ranks above one shown |
| ActionableInsights.ShowAllIffTruncated | src/components/insights/ActionableInsights.tsx:186 | the "see all" button appears exactly when some insight is left off |
| ActionableInsights.ClickTarget | src/components/insights/ActionableInsights.tsx:137 | a click fires the callback, with that insight, exactly when the insight is actionable and a callback is given |
| ActionableInsights.SortAndSlice | src/components/insights/ActionableInsights.tsx:77-85 | the caller's array is sorted in place and the shown list is its first `maxInsights` |
| QuickActions.RecentCount | src/components/insights/QuickActions.tsx:47-50 | the number of sessions started one to seven days ago is at most the number of sessions |
| QuickActions.RecentCountPositive | src/components/insights/QuickActions.tsx:47-50 | the count is positive exactly when some session started one to seven days ago |
| QuickActions.LowCount | src/components/insights/QuickActions.tsx:101-102 | the number of badly rated sessions is at most the number of sessions |
| QuickActions.ListedMembers | src/components/insights/QuickActions.tsx:52-115 | the list always holds a new session and the review settings, the review exactly when recent, the analytics exactly when many, the improvement exactly when low, and the improvement first |
| QuickActions.GetQuickActions | src/components/insights/QuickActions.tsx:43-121 | the pushes, the unshift and the sort compute the suggestions |
| QuickActions.SortByPriority | src/components/insights/QuickActions.tsx:117-120 | the stable sort returns the built list unchanged |
| QuickActions.ListedSorted | src/components/insights/QuickActions.tsx:117-120 | the built list is already in descending priority |
| QuickActions.ListedRanks | src/components/insights/QuickActions.tsx:52-115 | the list holds its high actions first, then the analytics if any, then the settings |
| QuickActions.SuggestionRules | src/components/insights/QuickActions.tsx:43-121 | a review is suggested exactly when some session lies in the window, the analytics exactly from three sessions, the improvement (first) exactly when two of the last five went badly |
| QuickActions.RenderedActions | src/components/insights/QuickActions.tsx:151 | at most four cards show, always the new session, and the settings drop out exactly when all three rules fire |
| QuickActions.RenderedListed | src/components/insights/QuickActions.tsx:151 | the first four of a built list lose the settings exactly when all three rules fire |
| EngineProvider.ParseEngine | src/contexts/DBEngineProvider.tsx:88-89 | a saved preference is taken exactly when it is `sqlite` or `dexie`, and names the engine it gives |
| EngineProvider.ParseNamedEngine | src/contexts/DBEngineProvider.tsx:63-89 | the name the provider saves for an engine reads back as that engine |
| EngineProvider.Initial | src/contexts/DBEngineProvider.tsx:31-33 | a mounted provider uses SQLite and is neither initialising nor initialised |
| EngineProvider.AfterInit | src/contexts/DBEngineProvider.tsx:35-68 | a call during an initialisation does nothing; a successful start marks the provider initialised; a failed Dexie start falls back to SQLite and saves that preference, leaving the initialised flag as it was |
| EngineProvider.SetEngineKeepsPreference | src/contexts/DBEngineProvider.tsx:70-78 | after `setEngine` the saved preference names the engine in use; a switch to SQLite leaves the initialised flag alone; the engine is the one chosen unless a Dexie start fails |
| EngineProvider.InitKeepsPreference | src/contexts/DBEngineProvider.tsx:35-68 | initialisation keeps the saved preference naming the engine in use |
| EngineProvider.SqliteStartAlwaysSucceeds | src/contexts/DBEngineProvider.tsx:41-53 | a SQLite start always marks the provider initialised, changes nothing else and runs no migration |
| EngineProvider.AfterMount | src/contexts/DBEngineProvider.tsx:86-106 | a failed read or a non-Dexie preference marks the provider initialised without touching the settings; a valid saved preference ends named by the engine in use |
| EngineProvider.MountInitialises | src/contexts/DBEngineProvider.tsx:86-106 | right after mounting, the provider is initialised unless a saved Dexie preference failed to start, in which case it is back on SQLite with that saved |
| EngineProvider.ForceReinitializeOutcome | src/contexts/DBEngineProvider.tsx:80-83 | a forced reinitialisation ends initialised exactly when the current engine starts |
| EngineProvider.DBEngineProvider.constructor | src/contexts/DBEngineProvider.tsx:30-33 | the provider starts in the initial state |
| EngineProvider.DBEngineProvider.InitializeDBEngine | src/contexts/DBEngineProvider.tsx:35-68 | the state becomes the state after initialisation, and the legacy migration runs exactly on a Dexie start whose open succeeded and whose migration is due |
| EngineProvider.DBEngineProvider.SetEngine | src/contexts/DBEngineProvider.tsx:70-78 | the state becomes the state after `setEngine` |
| EngineProvider.DBEngineProvider.ForceReinitialize | src/contexts/DBEngineProvider.tsx:80-83 | the state becomes the state after a forced reinitialisation |
| EngineProvider.DBEngineProvider.LoadPreference | src/contexts/DBEngineProvider.tsx:86-106 | the state becomes the state after the mount effect |
| Onboarding.Checked | src/hooks/useOnboarding.ts:13-23 | the check stops loading and shows the tour exactly when the read throws or no non-empty flag is stored |
| Onboarding.AfterComplete | src/hooks/useOnboarding.ts:25-32 | completing stores `'true'` and hides the tour; a throwing write changes nothing |
| Onboarding.AfterReset | src/hooks/useOnboarding.ts:34-41 | resetting removes the flag and shows the tour; a throwing remove changes nothing |
| Onboarding.OperationsKeepDisplayInStep | src/hooks/useOnboarding.ts:13-41 | a successful check makes the display agree with the stored flag, and completing or resetting keeps it agreeing |
| Onboarding.CompleteThenResetRestores | src/hooks/useOnboarding.ts:25-41 | completing and then resetting a fresh install restores the state after its first check |
| Onboarding.CheckAfterCompleteOrReset | src/hooks/useOnboarding.ts:13-41 | after completing every later check hides the tour; after resetting every later check shows it |
| Onboarding.OnboardingHook.constructor | src/hooks/useOnboarding.ts:6-7 | the hook starts hidden and loading |
| Onboarding.OnboardingHook.CheckOnboardingStatus | src/hooks/useOnboarding.ts:13-23 | reading the flag from the local storage, the hook's state becomes the checked state |
| Onboarding.OnboardingHook.CompleteOnboarding | src/hooks/useOnboarding.ts:25-32 | the storage gains the flag unless the write throws, and the hook's state follows |
| Onboarding.OnboardingHook.ResetOnboarding | src/hooks/useOnboarding.ts:34-41 | the storage loses the flag unless the remove throws, and the hook's state follows |
| Onboarding.OnboardingHook.SkipOnboarding | src/hooks/useOnboarding.ts:43-45 | skipping is completing |
| Sorting.WithKey | src/components/insights/ActionableInsights.tsx:77-84 | the elements of one key never outnumber the list |
| Sorting.Insert | src/components/insights/ActionableInsights.tsx:77-84 | an insertion step adds exactly the one element |
| Sorting.SortDesc | src/components/insights/ActionableInsights.tsx:77-84 | the comparator sort keeps the length and the multiset of elements |
| Sorting.InsertKeepsSorted | src/components/insights/ActionableInsights.tsx:77-84 | inserting into a list sorted largest key first keeps it sorted, and keeps its head when the head's key is at least the new one's |
| Sorting.InsertStable | src/components/insights/ActionableInsights.tsx:77-84 | an inserted element lands after every element of its own key |
| Sorting.NoneWithLargerKey | src/components/insights/ActionableInsights.tsx:77-84 | in a sorted list whose head key is below k, nothing has key k |
| Sorting.WithKeyAppend | src/components/insights/ActionableInsights.tsx:77-84 | picking one key's elements distributes over concatenation |
| Sorting.SortDescCorrect | src/components/insights/ActionableInsights.tsx:77-84 | the sort orders largest key first and keeps equal keys in their original order, as the stable `Array.prototype.sort` does |
| Sorting.SortDescSorted | src/components/insights/ActionableInsights.tsx:77-84 | the sort's result is ordered largest key first |
| Sorting.SortDescStable | src/components/insights/ActionableInsights.tsx:77-84 | the sort keeps the elements of each key in their original order |
| Sorting.SortDescMembers | src/components/insights/QuickActions.tsx:117-120 | the sort keeps exactly the elements it was given |
| Sorting.InsertSmallest | src/components/insights/QuickActions.tsx:117-120 | inserting an element whose key is at most every other key appends it |
| Sorting.SortedIsFixed | src/components/insights/QuickActions.tsx:117-120 | a list already sorted largest first is left as it is |
| JsArray.Slice | src/components/insights/ActionableInsights.tsx:85 | `slice(0, n)` is a prefix: n elements (at most all) for n >= 0, and all but the last -n for negative n |
| JsArray.LastN | src/components/insights/QuickActions.tsx:101 | `slice(-n)` is the suffix of the last n elements, or all of them |
| JsArray.Without | src/components/exam/ExamSetup.tsx:41 | the filter drops exactly the occurrences of the element |
| JsArray.Toggled | src/components/exam/ExamSetup.tsx:38-44 | toggling flips the element's membership and keeps every other element's |
| JsArray.WithoutAbsent | src/components/coliseum/BattleConfiguration.tsx:43 | filtering out an absent element changes nothing |
| JsArray.WithoutAppended | src/components/coliseum/BattleConfiguration.tsx:43-44 | filtering out an element just appended gives the filtered original |
| JsArray.ToggleTwice | src/components/coliseum/BattleConfiguration.tsx:40-46 | toggling an absent element twice restores the list; toggling a present one twice moves it to the end |
| JsText.PadTwo | src/pages/SimulatedExam.tsx:129 | `padStart(2, '0')` fills a short string with leading zeros to length 2 and leaves longer ones alone |
| JsText.TwoDigits | src/components/coliseum/ArenaInterface.tsx:54-56 | a number below 100 padded to two digits gives its tens and its units |
| JsText.SeparatorLandsOnDigit | src/components/exam/ExamResults.tsx:52 | in two equal `digits:rest` texts the digit runs cannot differ in length |
| JsText.PadTwoKeepsValue | src/pages/SimulatedExam.tsx:129 | zero padding keeps a digit string's value |
| JsText.PaddedReadsBack | src/pages/SimulatedExam.tsx:129 | a padded number reads back as itself |
| JsText.TwoDigitsInjective | src/components/exam/ExamResults.tsx:52 | two numbers below 100 with the same padded rendering are equal |
| JsText.ClockFieldsUnique | src/components/exam/ExamResults.tsx:52 | both fields of `m:ss` can be read back |
| Browser.LocalStorage.constructor | src/db/migrations/sqliteToDexie.ts:11 | the storage starts with the given items |
| Browser.LocalStorage.GetItem | src/db/migrations/sqliteToDexie.ts:11 | `getItem` returns the stored text exactly when the key is present, else `null` |
| Browser.LocalStorage.SetItem | src/db/migrations/sqliteToDexie.ts:24 | `setItem` stores the value under the key and changes nothing else |
| Browser.LocalStorage.RemoveItem | src/hooks/useOnboarding.ts:36 | `removeItem` drops the key and changes nothing else |
| PostInit.MigrateOne | src/db/dexie/migrations/postInit.ts:15-52 | one journey step, with the corrected simultaneous habit rename, keeps the journey keys and the habit keys |
| PostInit.StageIdsMigrated | src/db/dexie/migrations/postInit.ts:8-61 | the stage-id migration, with the corrected simultaneous habit rename, touches only journeys and habits, keeps both tables' keys and every journey's stage count |
| PostInit.MigratedJourneysAre | src/db/dexie/migrations/postInit.ts:15-53 | after the migration every journey is its own migrated form |
| PostInit.MigrateJourneysInOrder | src/db/dexie/migrations/postInit.ts:15-53 | the loop over the journeys read by `toArray` leaves journeys and habits as the journey-by-journey migration with the corrected simultaneous habit rename |
| PostInit.MigrateJourneysNoop | src/db/dexie/migrations/postInit.ts:37-52 | when no journey needs a rename, the loop changes nothing |
| PostInit.HabitUntouchedAcrossJourneys | src/db/dexie/migrations/postInit.ts:42-51 | a habit whose stage id no journey renames survives the loop unchanged |
| PostInit.UpsertRow | src/db/dexie/migrations/postInit.ts:83-99 | `get` then `update` or `add`: the table becomes the upsert of the row |
| PostInit.SyncJourneyTasks | src/db/dexie/migrations/postInit.ts:75-101 | the stage loop of one journey upserts its rows in order |
| PostInit.SyncJourneysInOrder | src/db/dexie/migrations/postInit.ts:74-102 | the journey loop upserts the rows of every journey in the given order |
| PostInit.TasksSynced | src/db/dexie/migrations/postInit.ts:67-110 | the task sync touches only the task table |
| PostInit.SyncRerunAddsNoRows | src/db/dexie/migrations/postInit.ts:83-99 | upserting the same rows again adds no key |
| PostInit.SyncWritesEmbeddedIds | src/db/dexie/migrations/postInit.ts:74-98 | the sync writes a row id exactly when some embedded task yields that id |
| PostInit.SyncedRowNamesStage | src/db/dexie/migrations/postInit.ts:85-91 | a synced row names a stage of the journey it names |
| PostInit.SyncedRowOfMigratedStage | src/db/dexie/migrations/postInit.ts:118-120 | after both passes a synced row names the canonical id of a stage of its journey |
| ColiseumEngine.Counted | src/utils/coliseumEngine.ts:178-184 | counting a question leaves a non-empty tally with at most one new entry |
| QuestionStore.QuestionTables.constructor | src/db/crud/questions.ts:1 | the question tables start with the given questions, topics and subjects and no attempts |
| SqlStore.SqliteDatabase.constructor | src/utils/sqlitePersistence.ts:42 | the relational store starts with the given settings and plan rows |
| ColiseumEngine.EffectiveTimeLimit | src/utils/coliseumEngine.ts:92 | a non-zero explicit limit wins; otherwise the mode's default, which is positive for every mode except the rescue operation |
| ColiseumEngine.CalculateColiseumXp | src/utils/coliseumEngine.ts:110-152 | every battle pays at least the mode's base; a rescue pays at least base plus the per-enemy reward per correct answer; a combat mode pays at most base, accuracy bonus, perfect bonus and 25 for speed |
| ColiseumEngine.ReportOf | src/utils/coliseumEngine.ts:157-223 | the report names the session and its mode, counts the session's questions and the tally's correct answers, has one entry per subject tallied, pays at least the base XP, and a perfect run is classified `Imperador do Coliseu` |
| ActivePlanMigration.RepairActivePlan | src/db/migration-active-plan.ts:5-84 | with the reads stepped: a stored active plan id leaves everything as it was; afterwards an active plan id is stored or nothing changed; other settings keep their keys and values |
| ActivePlanMigration.RepairActivePlanAsWritten | src/db/migration-active-plan.ts:5-84 | as written, with `getAsObject()` called without parameters at lines 19 and 31, the migration never changes the settings, plans or saved plans |
| ActivePlanMigration.UnsteppedReadsSkipRepair | src/db/migration-active-plan.ts:17-39 | whenever the setting is missing and an active saved row or a stored plan could supply it, the code as written leaves it missing while the stepped repair stores it |
| SqlStore.GetAsObject | src/db/migration-active-plan.ts:18-19 | `getAsObject` without parameters reads no row; with parameters it yields the first row the query selects |
| ExamResults.GetPerformanceLevel | src/components/exam/ExamResults.tsx:39-44 | a perfect score is `Excelente` and zero correct `Precisa Melhorar`; `Excelente` exactly from 80% and `Precisa Melhorar` exactly below 40% |
| VictoryReport.GetGradeColor | src/components/coliseum/VictoryReport.tsx:51-56 | no questions or zero correct is red, a perfect score green, and green exactly from 90% accuracy |
| SimulatedExam.LoadedQuestions | src/pages/SimulatedExam.tsx:61-68 | a mixed exam loads nothing; a topic exam loads exactly the questions of its topics; a room exam loads the room's questions |
| SimulatedExam.AfterStart | src/pages/SimulatedExam.tsx:60-88 | a started exam is active with the configuration, no answers, question 0, both start times now and at most the requested count of questions; a time limit gives 60 seconds per minute, otherwise the remaining time is kept |
| SimulatedExam.AfterSubmit | src/pages/SimulatedExam.tsx:90-111 | without a current question nothing changes; otherwise one answer for that question is appended, and the last question moves to the results while any other moves to the next question |
| SimulatedExam.AfterReset | src/pages/SimulatedExam.tsx:117-124 | the exam returns to setup with no configuration, questions or answers, and the timer stops |
| SimulatedExam.AfterTick | src/pages/SimulatedExam.tsx:44-58 | a stopped timer changes nothing; a tick keeps the questions, answers, configuration and index, never goes below 0, and moves to the results exactly when one second or less remained |
| Backup.Imported | src/db/dexie/backup.ts:52-137 | an accepted import raises every key generator above the imported keys; a merge keeps every record already stored |
| QuickActions.Suggestions | src/components/insights/QuickActions.tsx:43-121 | between two and five actions are suggested, by non-increasing priority |
| ActionableInsights.Shown | src/components/insights/ActionableInsights.tsx:77-85 | `min(maxInsights, n)` insights are shown for a non-negative limit, each taken from the insights given |
| UseAttributeSystem.GroupByArea | src/hooks/dexie/useAttributeSystem.ts:122-129 | the three groups together have as many attributes as the list, each holding only listed attributes of its own area |
| UseAttributeSystem.GetAttributesByArea | src/hooks/dexie/useAttributeSystem.ts:122-129 | while loading every group is empty; otherwise the groups together have as many attributes as the list |
| EngineProvider.AfterSetEngine | src/contexts/DBEngineProvider.tsx:70-78 | the engine becomes the one chosen, or SQLite when a chosen Dexie fails to start; the saved preference names the engine in use; other settings and the initialising flag are kept |
| EngineProvider.AfterForceReinitialize | src/contexts/DBEngineProvider.tsx:80-83 | during an initialisation only the initialised flag is cleared; otherwise the provider ends initialised exactly when the current engine starts, keeping the engine or falling back to SQLite |
| ExamSetup.AvailableQuestions | src/components/exam/ExamSetup.tsx:46-54 | the number shown is the number of questions the exam would load for the configuration the form builds |
| ExamSetup.CanStartExam | src/components/exam/ExamSetup.tsx:56-62 | the button is enabled only for a positive count no larger than the questions available, and never for a topic exam with no topic chosen |
| Onboarding.Mounted | src/hooks/useOnboarding.ts:6-11 | on mount the hook is loading with the tour hidden, over the stored flag |
| Onboarding.Completed | src/hooks/useOnboarding.ts:15-16 | the stored flag `"true"` counts as completed, and a missing flag never does |
| PostInit.StageRenames | src/db/dexie/migrations/postInit.ts:17-35 | the old→new mapping has at most one entry per stage and maps only ids that some stage carries |
| PostInit.NormalizedStages | src/db/dexie/migrations/postInit.ts:20-35 | the stage count is kept, every stage gets its canonical id, and a stage already canonical is unchanged |
| PostInit.MigratedJourney | src/db/dexie/migrations/postInit.ts:15-39 | only the stages and `updatedAt` can change; the stage count is kept, every id is canonical, and a journey with a rename gets the run's time |

## Left out

- Logging to the console, toasts, and the async interleaving of the Dexie promises and React state updates: each transaction, handler or timer tick is one atomic step.
- The storage engines themselves (sql.js statements, Dexie indexes and transactions, `localStorage`): each is a class whose fields are maps or row sequences; SQL text and `prepare`/`step` are not modelled.
- JSON serialisation and parsing (backup files, stored options and tags): backups are modelled at the level of store contents, and `createDexieBackupFile` (a `Blob`) is not modelled.
- Clocks, `Math.random` shuffles and random id suffixes: timestamps and ids are parameters and a shuffle is any permutation; nothing is stated about randomness, and generated ids are assumed not to collide unless a lemma says otherwise.
- The local calendar (today's and tomorrow's midnight in `wasCompletedToday`, the one-to-seven-day window of the quick actions): the boundaries are parameters or whole milliseconds.
- Floating point: accuracy percentages, progress bars, average response times, `averageRetention` and the ease factor; every threshold test is an integer comparison (`100 * correct >= 90 * total`).
- Durations are `nat`: a negative number of seconds never reaches a formatter.
- Ties in `ORDER BY updated_at DESC`: the relational store keeps rows in a fixed order and the most recent plan is any row with the greatest timestamp.
- The live queries (`useLiveQuery`) of the hooks, and the read helpers that are not core operations: `getHabitCompletions`, `getAttribute`, `getAttributeHistory`, `getQuestionsByRoom`, `getQuestionsByTopic`; the topic and room readers are parameters.
- `createAttributeGoal` and `updateAttributeGoal` of the attribute hook, and a general `updateJourney` patch (only the `{ stages }` patch that `updateStage` and `completeStage` send is modelled).
- The pass-through helpers of src/utils/sqlitePersistence.ts that the core operations do not use: daily logs, session data, `getSavedPlans`, `loadStudyPlan`, `getActivePlan`, `exportStudyPlan`, `importStudyPlan`, `createBackup` and the Dexie journey, habit and profile wrappers.
- src/db/db.ts, src/db/singleton.ts, src/db/crud/enemies.ts, src/db/crud/battle.ts, src/utils/insightsEngine.ts and src/types/study.ts are not part of this model: their results are parameters (the enemies per room, the questions of a topic, the backup sessions) and `updateUserProgress` after a battle is not modelled.
- React context plumbing: `useDBEngine` throwing outside its provider, and the render-only parts of the pages and components.
- ColiseumPage.ColiseumPageState.LoadEnemiesData: the count of red-room enemies, which only the mode selector displays, is not stored.
- ExamSetup.ExamSetupForm: the topic checkbox that is disabled for a topic without questions is not modelled; such a topic can still be toggled here.
- ExamSetup.ExamSetupForm.HandleStartExam: the method builds the configuration whether or not the button is enabled; `CanStartExam` states when the button lets the click through.
- ColiseumEngine.XpMonotoneInCorrect: stated for `correct <= total` and `total > 0`, the only inputs the report produces.
- SimulatedExam.OperationsKeepConsistent: a submission in the results view is excluded, since the results view offers no answer button; there it would append an answer beyond the questions.
- VictoryReport.AnimateXp: the float increment `xp / 60` is modelled exactly, as `k * xp / 60` after k ticks; float rounding of the running sum is not modelled.
- ActionableInsights.SortAndSlice: a negative `maxInsights` follows `slice` semantics and drops insights from the end; the default of 5 applies only when the prop is absent.
- QuickActions.SortByPriority: the priority sort is shown to return the list as built; `improve-technique` calls the settings callback, like `configure-reviews`.
- Flashcards.Stats: `averageRetention` is a float and is not modelled; the total counts every flashcard row, including rows no join would keep.
- Flashcards.CreateFlashcard: unlike `createQuestion` there is no retry after a failed insert; the failure is reported.
- EngineProvider.AfterInit: a failed Dexie start leaves `isInitialized` as it was, as the source does.
- ColiseumPage.CountdownTick: the battle finishes on the tick after 0 is shown, one tick later than the exam timer, as the source does.
- PostInit.MigrateJourney: renames habit references with the corrected simultaneous rename (`RenameHabitsAtOnce`), not the as-written `modify` per old id; the two agree whenever no new id is also an old id (`SequentialAgreesWhenDisjoint`), and the first Finding shows an input where they differ.
- PostInit.MigrateOne: uses the corrected simultaneous habit rename, as `PostInit.MigrateJourney` does.
- PostInit.MigrateJourneysInOrder: uses the corrected simultaneous habit rename, as `PostInit.MigrateJourney` does.
- PostInit.StageIdsMigrated: uses the corrected simultaneous habit rename, as `PostInit.MigrateJourney` does.
- PostInit.MigrateStageIds: uses the corrected simultaneous habit rename, as `PostInit.MigrateJourney` does.
- PostInit.RunPostInitMigrations: uses the corrected simultaneous habit rename, as `PostInit.MigrateJourney` does.
- DexieInit.RunPostInitMigrationsOnce: uses the corrected simultaneous habit rename, as `PostInit.MigrateJourney` does.
- DexieInit.InitializeDexieDB: seeds the profile with the corrected key-1 put (`InitializeDefaultProfile`) rather than the as-written `add` under the key generator (`InitializeDefaultProfileAsWritten`, second Finding), and migrates with the corrected simultaneous habit rename; the swallowed failures of both seeding steps are parameters.
- UseHabits.UpdateHabit: a patch of the primary key `id` is not modelled; `HabitPatch` covers every other field of `Partial<Habit>`, and `updatedAt` is always the call's time.
- ColiseumEngine.Counted: subject names are taken not to be integer-like; for such keys `Object.entries` would list the subjects in ascending numeric order before the others, not in insertion order.
- ActivePlanMigration.RepairActivePlan: models the repair with both row reads stepped (first Finding on migration-active-plan.ts); as written (`RepairActivePlanAsWritten`) the migration changes nothing.
- ActivePlanMigration.MigrateActivePlanPersistence: performs the stepped repair, as `ActivePlanMigration.RepairActivePlan` does.
- ActivePlanMigration.PointAtPlan: is reached only through the stepped read of the most recent plan; as written it never runs.
- ActivePlanMigration.RepairFillsActiveSetting: is stated of the stepped repair; as written the setting is filled only if it already was.
- ActivePlanMigration.RepairIsIdempotent: is stated of the stepped repair; the as-written migration is trivially idempotent.
- ActivePlanMigration.CleanupKeepsAtMostSix: is stated of the stepped repair; as written the cleanup never runs.
- ActivePlanMigration.CleanupKeepsRecentPlans: is stated of the stepped repair; as written the cleanup never runs.
- ActivePlanMigration.CollisionLeavesNoActiveRow: is stated of the stepped repair; as written the insert is never reached.
- ActivePlanMigration.CreatedRowIsOnlyActive: is stated of the stepped repair; as written no row is created.
- SqlitePersistence.ActivePlanSource: models the load with the Strategy 3 read stepped (Finding on sqlitePersistence.ts); as written (`ActivePlanSourceAsWritten`) the last strategy never finds a plan.
- SqlitePersistence.LoadActiveStudyPlan: performs the stepped load, as `SqlitePersistence.ActivePlanSource` does; as written it never writes the setting.
- SqlitePersistence.LoadFindsAPlanIffAnyStored: is stated of the stepped load; as written a plan is found only through the setting or an active saved row.
- SqlitePersistence.RepairedLoadIsStable: is stated of the stepped load; as written the repair it describes never happens.
- UseHeroProfile.PatchedProfile: a patch of the primary key `id` is not modelled, since the profile is always stored under key 1; every other field of `Partial<HeroProfile>` is covered.
- UseHeroProfile.UpdateHeroProfile: a patch of the primary key `id` is not modelled, as for `UseHeroProfile.PatchedProfile`.
- UseTasks.PatchedTask: a patch of the primary key `id` is not modelled; `TaskPatch` covers every other field of `Partial<Task>`.
- UseTasks.TasksUpdated: a patch of the primary key `id` is not modelled, as for `UseTasks.PatchedTask`.
- UseTasks.UpdateTask: a patch of the primary key `id` is not modelled, as for `UseTasks.PatchedTask`.
- QuestionStore.QuestionTables: a question's difficulty is one of `easy`, `medium` and `hard`; a different string that `importQuestionsInBatch` stores unchecked is not representable.
- ColiseumEngine.TallyOf: covers only the three known difficulties; for any other stored difficulty the source's `performanceByDifficulty[question.difficulty].total++` throws a `TypeError`, so the report, and the battle finish that needs it, fail.
- ColiseumEngine.CountAnswers: covers only the three known difficulties, as `ColiseumEngine.TallyOf` says.
- ColiseumEngine.GenerateColiseumReport: covers only the three known difficulties; the throwing report of `ColiseumEngine.TallyOf` is not modelled.
- ColiseumEngine.ReportOf: covers only the three known difficulties, as `ColiseumEngine.TallyOf` says.
- Questions.RecordQuestionAttempt: covers only the three known difficulties; for any other one the source's XP multiplier is 1.

## Findings

| source | as written | input that shows it | evidently intended | confidence | as-written member | corrected member |
|---|---|---|---|---|---|---|
| src/db/dexie/migrations/postInit.ts:42-51 | habit references are renamed one old id at a time, each rename seeing the previous ones | journey 1 with stages `stage--1--1`, `stage--1--0` and a habit on `stage--1--1`: it is renamed to `stage--1--0` and then back to `stage--1--1` | every habit follows its own stage (doc comment at lines 5-6) | high, not executed | PostInit.SwappedStageIdsRenameTwice | PostInit.RenameHabitsAtOnce |
| src/db/dexie/database.ts:79-90 | the default profile is looked up with `get(1)` but stored with `add`, which takes the next auto-increment key | a store whose profiles were cleared after profile 1 existed (a replace import), so the key generator is at 2: every start-up adds another default profile and none is ever stored under key 1 | the default profile stored once, under key 1 | high, not executed | DexieInit.DefaultProfileDuplicatedAsWritten | DexieInit.ProfilesAfterInit |
| src/db/migration-active-plan.ts:17-39 | the active saved row and the most recent plan are read with `getAsObject()` without parameters, and sql.js steps a statement only when parameters are given, so both reads come back empty | no `active_plan_id` setting and one stored plan `p1` with no saved plans: the migration leaves the setting missing and creates no saved row | the setting filled from the active saved row or the most recent plan (comments at lines 17 and 29) | high, not executed | ActivePlanMigration.UnsteppedReadsSkipRepair | ActivePlanMigration.RepairActivePlan |
| src/utils/sqlitePersistence.ts:113-129 | Strategy 3 reads the most recent plan with `getAsObject()` without parameters, which reads no row | no `active_plan_id` setting, no active saved plan and one stored plan `p1`: the load returns null and repairs nothing | the most recent plan returned as a last resort and the setting repaired (comments at lines 113 and 125) | high, not executed | SqlitePersistence.UnsteppedReadMissesRecentPlan | SqlitePersistence.ActivePlanSource |

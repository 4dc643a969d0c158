# granja-app: a verified model of the offline-first farm store

granja-app is a pig-farm management application that works offline. Every
entity (pigs, weight logs, health events, feed stock and usage, pens,
sections, roles, breeding events, visitor logs, points) lives in a table of
the browser's local database. Each row carries a synchronisation marker:
`pending` after a local write, `synced` once a sync cycle has pushed it or
pulled it from the server. The screens and hooks write these tables directly
and check some of the farm's rules as they do so, each in one place:
- the consumption and feeding hooks refuse to take feed stock below zero;
- the move dialog refuses a move past the target pen's capacity (the
  registration page adds a pig to any pen without that check);
- the registration component refuses a duplicate active `numero_arete` (the
  registration page and a sync pull store rows without that check);
- the visitor log refuses a high-risk visitor without explicit authorisation;
- a badge warns against selling a pig while a medication's withdrawal period
  runs (there is no sale operation to block);
- a service predicts farrowing 114 days later.

This project models, in Dafny:
- the local store, as a class `Store.LocalDb` whose fields are the tables (`map<Id, Tracked<T>>`);
- the key-value area (`Store.KeyValueStorage`: session token, user, permissions, sync watermark);
- the one synchronisation cycle in `src/services/syncService.js`;
- every operation of the hooks and screens that write the tables or compute the farm's derived figures.

Operations that change state in the source are methods of the classes, or
methods that take `LocalDb`. Each method is proved against a specification
function, and the promised properties are lemmas about those functions.
Pure computations (filters, sorts, date arithmetic, sums) are functions
with lemmas.

The system's design describes a fuller sync protocol than the code has:
- rows of every table are pushed;
- the request carries a bearer token;
- tombstones become hard deletes;
- duplicate sections and pens are merged by name, with foreign keys remapped.

The code pushes and pulls only `pigs` and `health_records`, sends no
Authorization header, and has no tombstone or duplicate handling. The model
follows the code.

Modelling conventions:
- Ids are strings. Fresh UUIDs are parameters that are not yet in the table.
- Quantities and money are reals. `toFixed(2)` and `toFixed(1)` are rounding half away from zero (`Quantities.Round2`, `Quantities.Round1`).
- Dates are whole day numbers and instants are milliseconds (`DayMs` = 86 400 000).
- `now` and `today` are parameters.
- The HTTP exchanges (sync, login) are input values.
- A query whose result order the code depends on is given as a sequence that lists the matching rows once each (`Store.Enumerates`).

## Model

| member | source | states |
|---|---|---|
| Store.PendingIds | src/services/syncService.js:10-11 | the ids selected are exactly the rows whose `syncStatus` is `pending` |
| SyncService.PendingRows | src/services/syncService.js:10-11 | the pushed rows are keyed exactly by the pending ids and carry each row's content |
| SyncService.PendingCount | src/services/syncService.js:95-99 | the count is 0 exactly when every row of `pigs` and `health_records` is synced |
| SyncService.MarkPushedSynced | src/services/syncService.js:49-59 | the loop over pushed ids yields the table with exactly those rows marked synced |
| SyncService.BulkPutSynced | src/services/syncService.js:61-79 | the loop over incoming rows yields the upsert of all of them, in order, as synced |
| SyncService.Sync | src/services/syncService.js:6-92 | offline: no request and no change. Online: the request carries the pending rows and watermark. A failed or unreadable response changes no table and no watermark. Success reconciles both tables, reports pushed pigs plus pushed records, and moves the watermark only to a truthy timestamp |
| SyncService.PutAllKeys | src/services/syncService.js:61-79 | after the upsert the keys are the old keys plus the incoming ids |
| SyncService.PutAllKeepsOthers | src/services/syncService.js:61-79 | an id that does not come in keeps its presence and its row |
| SyncService.PutAllLastWins | src/services/syncService.js:62-68 | an incoming id ends with the content of its last occurrence, synced |
| SyncService.PutAllNothingPending | src/services/syncService.js:64-78 | the upsert adds no pending row to a table that had none |
| SyncService.PushedRowsSynced | src/services/syncService.js:50-59 | every pushed row is synced afterwards, and keeps its local content unless the server returned it |
| SyncService.IncomingRowsStored | src/services/syncService.js:62-79 | every incoming row is stored with the server's content and `synced`, even a row just pushed |
| SyncService.UntouchedRowsUnchanged | src/services/syncService.js:47-80 | a row neither pushed nor returned is unchanged and not added or removed |
| SyncService.ReconciledKeys | src/services/syncService.js:47-80 | reconciliation removes no row and adds exactly the incoming ids |
| SyncService.NothingPendingAfterSync | src/services/syncService.js:47-99 | after a successful cycle with no interleaved writes the pending count is 0 |
| SyncService.SecondEmptyCycleIsNoOp | src/services/syncService.js:13-18 | a following pull-only cycle that brings nothing back changes nothing |
| Feeding.RegisterFeeding | src/hooks/useFeeding.js:7-63 | the result is the decision on the inputs (missing parameters, feed not found, insufficient stock, registered), and the new inventory and usage tables are its effect |
| Feeding.RejectedWritesNothing | src/hooks/useFeeding.js:8-24 | a rejected call leaves inventory and usage unchanged |
| Feeding.ShortStockIsRefused | src/hooks/useFeeding.js:22-24 | stock below the total is refused with the available stock |
| Feeding.StockAfterRegistration | src/hooks/useFeeding.js:50-54 | on success the stock drops by the total, not by the rounded shares, stays non-negative, and the row's sync marker is untouched |
| Feeding.WithUsagesContents | src/hooks/useFeeding.js:31-41 | the usage table gains exactly one pending row per new id, for its target, and keeps the rest |
| Feeding.OneUsagePerTarget | src/hooks/useFeeding.js:27-41 | on success each target gets one usage of the same feed with the rounded even share, pending |
| Feeding.PerTargetIsEvenShare | src/hooks/useFeeding.js:27-35 | each share is the total over the number of targets, to within half a hundredth |
| Feeding.FiftyKgOverFivePigs | src/hooks/useFeeding.js:27-54 | 50 kg over five pigs gives 10 kg each and takes 120 kg of stock to 70 kg |
| Feeding.RoundedSharesNeedNotAddUp | src/hooks/useFeeding.js:35-51 | 10 kg over three pigs records 3.33 each while the stock drops by the full 10 kg |
| Quantities.RoundHalfAway | src/hooks/useFeeding.js:35 | the rounded integer is within one half of the value, a half rounds away from zero, the sign is kept, and integers are exact |
| Quantities.Round2 | src/hooks/useFeeding.js:35 | two-decimal rounding moves a value by at most 0.005 and keeps its sign |
| Quantities.Round2Exact | src/hooks/useFeeding.js:51 | a value already in hundredths is unchanged by rounding |
| Quantities.Round1 | src/hooks/useProfitability.js:49 | one-decimal rounding moves a value by at most 0.05 and keeps its sign |
| Inventory.NewStockItem | src/hooks/useInventory.js:9-17 | a new item is pending with the given name, price and batch; its stock is the amount, or not-a-number when the amount is empty |
| Inventory.AddStock | src/hooks/useInventory.js:7-20 | the inventory gains exactly that item under the fresh id |
| Inventory.StockOf | src/hooks/useInventory.js:27 | stock is read from `current_stock_kg`, falling back to the legacy `current_stock` only when the first is absent |
| Inventory.RecordConsumption | src/hooks/useInventory.js:22-49 | the result is the consumption decision and the tables are its effect |
| Inventory.UpdateItem | src/hooks/useInventory.js:51-57 | the inventory becomes the merge of the patch into the item |
| Inventory.ThrownWritesNothing | src/hooks/useInventory.js:24-28 | a thrown consumption writes nothing |
| Inventory.NotEnoughStockExactly | src/hooks/useInventory.js:27-28 | for an existing item, 'Not enough stock' is thrown exactly when the stock reads as a number below the amount; an unreadable stock passes the check |
| Inventory.ConsumedStockAndUsage | src/hooks/useInventory.js:30-48 | on success the stock drops by exactly the amount and stays non-negative, the item becomes pending, and one pending usage row with the feed, pig, pen and amount is added |
| Inventory.LegacyStockIsRead | src/hooks/useInventory.js:27 | an item with only the legacy field is consumed from it |
| Inventory.UpdateAlwaysPending | src/hooks/useInventory.js:51-57 | an updated item is always pending, whatever the patch says; other items are unchanged |
| Inventory.UpdateMergesPatch | src/hooks/useInventory.js:52-53 | each of name, price per kg, stock and batch number takes the patch's value when the patch has one and keeps its own otherwise; the legacy stock field is untouched |
| Inventory.ExistingItemIsFound | src/hooks/useInventory.js:24-28 | looked up by its own id, an existing item is never 'Feed item not found', and is consumed when its stock covers the amount |
| Inventory.DigitLedFeedIdIsNotFound | src/hooks/useInventory.js:24 | with the lookup as written, an item whose UUID starts with a digit is reported missing though it exists; a letter-led UUID is found |
| FeedingLog.ActivePigIds | src/pages/FeedingLog.jsx:17-20 | a pig is found exactly when a pen is chosen, the pig's `pen_id` is that pen's id and it is `Activo` (the query by the pen's own id) |
| FeedingLog.AsWrittenActivePigIds | src/pages/FeedingLog.jsx:17-20 | with `parseInt` as written, a pig is found exactly when the pen id parses to a number, the pig's `pen_id` is indexed under that number, and it is `Activo` |
| FeedingLog.TextKeys | src/components/MovePigsModal.jsx:70 | a pig's `pen_id` is indexed exactly when it has one, under the pen's text id |
| FeedingLog.MovedPigIsNotFed | src/pages/FeedingLog.jsx:18 | with the query as written, no pig whose `pen_id` the move dialog stored is found, though a moved active pig is found by the pen's own id |
| FeedingLog.FilteredPens | src/pages/FeedingLog.jsx:22 | a pen is offered exactly when it belongs to the chosen section, deleted or not; the pig registration page (src/pages/PigForm.jsx:22) offers the same list |
| FeedingLog.HandleMassFeed | src/pages/FeedingLog.jsx:24-58 | no active pigs, missing feed or amount, or a declined confirmation writes nothing. Otherwise the tables are the run of one consumption per pig with the even share, stopping at the first failure. The total-amount field is cleared after a completed run and keeps its value otherwise |
| FeedingLog.CommittedPrefix | src/pages/FeedingLog.jsx:49-51 | a run that stops at pig k has committed exactly the usages for pigs before k |
| FeedingLog.StockAfterRun | src/pages/FeedingLog.jsx:49-51 | stock is decremented once per committed pig |
| FeedingLog.PartialRunStaysCommitted | src/pages/FeedingLog.jsx:49-57 | 30 kg over three pigs with 25 kg in stock commits two usages, leaves 5 kg and then fails |
| FeedingLog.MovedPigsAreFed | src/pages/FeedingLog.jsx:17-20 | with the query by the pen's own id, after a move a selected active pig is among its new pen's pigs, and other pigs' membership is unchanged |
| FeedingForm.ActiveIds | src/components/FeedingForm.jsx:10 | a pig is listed exactly when its status is `Activo` |
| FeedingForm.FeedingFormState.constructor | src/components/FeedingForm.jsx:12-18 | batch mode, stage `Levante`, nothing selected, empty amount |
| FeedingForm.FeedingFormState.AverageShown | src/components/FeedingForm.jsx:128-129 | the average shows exactly in batch mode with an amount and at least one target, and equals the per-target share |
| FeedingForm.FeedingFormState.HandleSubmit | src/components/FeedingForm.jsx:25-42 | the call is made with the form's feed, amount and target ids; the amount is cleared only on success |
| FeedingForm.TargetIdsExactly | src/components/FeedingForm.jsx:21-23 | an id is a target exactly when it is listed and matches the mode (stage in batch mode, the chosen id in individual mode); no more targets than listed pigs, and no repeats when the listing has none |
| FeedingForm.TargetsKeepListOrder | src/components/FeedingForm.jsx:21-23 | the targets keep the listing's order: each sits at a list position later than the one before it |
| FeedingForm.BatchTargetsTheStage | src/components/FeedingForm.jsx:21-22 | in batch mode a pig is a target exactly when it is active and in the stage |
| FeedingForm.IndividualTargetsOnePig | src/components/FeedingForm.jsx:23 | in individual mode the target is the chosen pig if it is active, else none |
| MovePigsModal.AvailablePens | src/components/MovePigsModal.jsx:21-26 | a pen is offered exactly when a section is chosen, the pen belongs to it and is not deleted |
| MovePigsModal.Occupants | src/components/MovePigsModal.jsx:39-42 | a pig occupies a pen exactly when it is not deleted and its `pen_id` is that pen |
| MovePigsModal.Occupancy | src/components/MovePigsModal.jsx:31-49 | the occupancy is 0 with no pen, else the number of occupants |
| MovePigsModal.Moved | src/components/MovePigsModal.jsx:67-73 | a move keeps the set of pigs |
| MovePigsModal.HandleSubmit | src/components/MovePigsModal.jsx:62-80 | the move happens exactly when a pen is chosen and it is not over capacity; then the pigs table is the bulk move, else unchanged |
| MovePigsModal.MoveChangesOnlySelected | src/components/MovePigsModal.jsx:67-80 | each selected pig gets the target pen, the move's timestamp and `pending`, and keeps every other field; every other pig is unchanged |
| MovePigsModal.MoveRespectsCapacity | src/components/MovePigsModal.jsx:55-63 | an allowed move leaves the pen's occupancy within its capacity |
| MovePigsModal.MoveKeepsOccupants | src/components/MovePigsModal.jsx:67-80 | the pen's previous occupants remain in it |
| RoleSettings.ListedRoles | src/pages/RoleSettings.jsx:6 | a role is listed exactly when it is not soft-deleted |
| RoleSettings.Category | src/pages/RoleSettings.jsx:16 | the category is the slug's text before its first '.' (the whole slug without one) |
| RoleSettings.GroupIsCategoryFilter | src/pages/RoleSettings.jsx:15-20 | a group exists exactly for a category with permissions, and holds that category's permissions in input order |
| RoleSettings.EachPermissionInOneGroup | src/pages/RoleSettings.jsx:15-20 | each permission is in its own category's group and in no other |
| RoleSettings.InCategoryMembers | src/pages/RoleSettings.jsx:15-20 | a permission is in a category's list exactly when its slug has that category |
| RoleSettings.Without | src/pages/RoleSettings.jsx:106 | removing an id drops it and keeps every other member |
| RoleSettings.WithoutKeepsDistinct | src/pages/RoleSettings.jsx:106 | removal keeps the list free of repeats |
| RoleSettings.ToggleFlips | src/pages/RoleSettings.jsx:103-109 | toggling flips the one id's membership and keeps every other |
| RoleSettings.ToggleKeepsDistinct | src/pages/RoleSettings.jsx:103-109 | toggling keeps the selection free of repeats |
| RoleSettings.ToggleTwice | src/pages/RoleSettings.jsx:103-109 | toggling twice restores the membership, and restores the list itself for an absent id |
| RoleSettings.WithoutAppended | src/pages/RoleSettings.jsx:105-107 | removing an id just appended gives back the list |
| RoleSettings.RoleEditor.constructor | src/pages/RoleSettings.jsx:9-12 | not editing, no role, empty name and selection |
| RoleSettings.RoleEditor.HandleCreate | src/pages/RoleSettings.jsx:35-40 | opens the editor on a new role with empty name and selection |
| RoleSettings.GrantedIds | src/pages/RoleSettings.jsx:28-31 | a permission is granted to a role exactly when a `role_permissions` pair joins the two |
| RoleSettings.RoleEditor.HandleEdit | src/pages/RoleSettings.jsx:22-33 | opens the editor on the role with its stored name; the selection lists, without repeats, exactly the permissions its pairs grant |
| RoleSettings.RoleEditor.TogglePermission | src/pages/RoleSettings.jsx:103-109 | the selection becomes its toggle |
| RoleSettings.RoleEditor.HandleSave | src/pages/RoleSettings.jsx:42-92 | a new role is inserted, or the edited one renamed, pending; its pairs are replaced by the selection; the editor closes |
| RoleSettings.HandleDelete | src/pages/RoleSettings.jsx:94-101 | the roles table becomes the soft deletion, or stays as it is when not confirmed |
| RoleSettings.SavedPermissionsAreTheSelection | src/pages/RoleSettings.jsx:66-85 | after saving, the role's pairs are exactly the selected ids, each pending, and other roles' pairs are unchanged |
| RoleSettings.EditAfterSaveShowsSelection | src/pages/RoleSettings.jsx:28-31 | editing a role just saved shows exactly the permissions selected when it was saved |
| RoleSettings.DeleteIsSoft | src/pages/RoleSettings.jsx:94-100 | a deleted role stays in the table with `deleted_at` set and pending; other roles are unchanged |
| AuthProvider.Session.constructor | src/auth/AuthProvider.jsx:6-9 | no user, the stored token, no permissions, loading |
| AuthProvider.Session.Restore | src/auth/AuthProvider.jsx:12-21 | user and permissions become the restoration from storage; loading ends |
| AuthProvider.Session.Login | src/auth/AuthProvider.jsx:23-56 | success exactly on an accepted answer, which sets and persists token, user and permissions; a failure changes nothing |
| AuthProvider.Session.Logout | src/auth/AuthProvider.jsx:58-64 | session and storage are emptied, the sync watermark included |
| AuthProvider.AdminGrantsEverything | src/auth/AuthProvider.jsx:67 | holding `admin.manage` grants every slug |
| AuthProvider.OnlyListedWithoutAdmin | src/auth/AuthProvider.jsx:66-68 | without `admin.manage` a slug is granted exactly when listed |
| AuthProvider.LoggedOutHasNothing | src/auth/AuthProvider.jsx:58-68 | after logout no slug is granted |
| AuthProvider.PersistedLoginRestores | src/auth/AuthProvider.jsx:12-21 | what a login persisted is restored |
| AuthProvider.NoRestoreWithoutTokenAndUser | src/auth/AuthProvider.jsx:16-19 | without a token and a stored user nothing changes |
| AuthProvider.ClearedStorageRestoresNothing | src/auth/AuthProvider.jsx:12-21 | after logout a restore leaves the session empty |
| PigDetail.OfferedMedications | src/components/PigDetail.jsx:353 | a medication is offered exactly when it is not deleted |
| PigDetail.HandleAddWeight | src/components/PigDetail.jsx:42-64 | an empty weight writes nothing. Otherwise a pending log is added, and the pig's weight becomes the value and the pig pending, whatever the log's date |
| PigDetail.HandleAddHealth | src/components/PigDetail.jsx:107-130 | the event built from the form is added and the form reset |
| PigDetail.HandleDeletePig | src/components/PigDetail.jsx:132-140 | a confirmed delete sets `deleted_at` and pending and keeps the row; no confirmation or no such pig, no change |
| PigDetail.WithdrawalEndIsDatePlusDays | src/components/PigDetail.jsx:66-84 | an end date exists exactly for an existing medication with positive withdrawal days, and is the event date plus those days |
| PigDetail.FormStaysConsistent | src/components/PigDetail.jsx:66-105 | choosing a medication and changing the date keep the end date equal to date plus withdrawal days |
| PigDetail.DateChangeKeepsPickedEnd | src/components/PigDetail.jsx:87-105 | for a medication without a withdrawal period, a date change keeps the end computed when the medication was picked, which is none unless the medication's period has changed since |
| PigDetail.HealthEventFields | src/components/PigDetail.jsx:109-119 | the stored event is pending, for the pig and date, with cost 0 when it does not parse, no medication exactly for an empty choice, and the end date the form holds (set only by picking a medication or changing the date) |
| BreedingManager.SortedNewestFirst | src/components/BreedingManager.jsx:48-50 | the list is a permutation of the events, newest date first |
| BreedingManager.FirstService | src/components/BreedingManager.jsx:53-57 | the first service found is a service among the events, and there is none only when no event is one |
| BreedingManager.ActiveServiceIsLatest | src/components/BreedingManager.jsx:52-57 | the active service is a service no older than any other, whatever follows it |
| BreedingManager.FirstServiceIsLatest | src/components/BreedingManager.jsx:53-57 | in a newest-first list the first service is the latest service |
| BreedingManager.FarrowingFollowsService | src/components/BreedingManager.jsx:59 | a farrowing date exists exactly when a service exists, and is 114 days after the active service |
| BreedingManager.CeilDivIsCeiling | src/components/BreedingManager.jsx:61 | the division rounds up |
| BreedingManager.DaysRemainingIsDayDifference | src/components/BreedingManager.jsx:60-62 | days remaining are the due day less today, and are at most 0 exactly when the due day is reached |
| BreedingManager.HandleSaveEvent | src/components/BreedingManager.jsx:27-46 | the saved event carries the pig, the form's fields and pending; the form is reset |
| Sorting.InsertPerm | src/components/BreedingManager.jsx:49 | insertion adds exactly the one element |
| Sorting.InsertBound | src/components/BreedingManager.jsx:49 | insertion keeps a lower bound on the keys |
| Sorting.InsertSorted | src/components/BreedingManager.jsx:49 | insertion keeps a list ascending |
| Sorting.SortByKeeps | src/components/WeightTracker.jsx:41 | sorting gives an ascending permutation |
| SanitaryAlert.AlertWhileWithdrawalRuns | src/components/SanitaryAlert.jsx:4-32 | no end date, no alert. The alert shows exactly while today is not past the end day, never with a negative count; it reads 0 on the end day |
| SanitaryAlert.CountDownByDay | src/components/SanitaryAlert.jsx:12 | each day before the end lowers the count by one |
| PigFormComponent.HandleSubmit | src/components/PigForm.jsx:18-70 | the outcome is the validation; any refusal writes nothing and keeps the form; success adds the new pig and clears name and tag |
| PigFormComponent.NegativeWeightComesFirst | src/components/PigForm.jsx:24-27 | a negative weight is refused before any other check |
| PigFormComponent.FutureBirthIsRefused | src/components/PigForm.jsx:29-32 | a birth date after now is refused, and today's date is not |
| PigFormComponent.OnlyActivePigsBlockTheTag | src/components/PigForm.jsx:38-46 | an active pig with the tag blocks the insert; an inactive one alone does not |
| PigFormComponent.RowUsesFormNames | src/components/PigForm.jsx:48-55 | the stored row carries the form's fields under the form's names (`numero_arete`, `sexo`, `etapa`, `fecha_nacimiento`, `peso`) and leaves the page's names empty |
| PigFormComponent.SavingKeepsTagsUnique | src/components/PigForm.jsx:38-55 | a save keeps active tags unique and stores an active, pending pig |
| PigFormPage.HandleSubmit | src/pages/PigForm.jsx:24-59 | a save happens exactly with `pig.create` (or admin) and a pen. It adds the pig and its initial weight log and clears tag and weight; otherwise nothing changes |
| PigFormPage.RowUsesPageNames | src/pages/PigForm.jsx:28-41 | the stored row carries the form's fields under the page's names (`tag_number`, `sex`, `stage`, `birth_date`, `weight`) and leaves the component's names empty |
| PigFormPage.PigAndLogAgree | src/pages/PigForm.jsx:28-51 | the pig is active and pending in its pen; the log is linked to it, with the same weight, and pending |
| PigFormPage.FormNeedsPigCreate | src/pages/PigForm.jsx:57-59 | the form is available exactly with `pig.create` or `admin.manage` |
| PigFormPage.NextPigKeepsPen | src/pages/PigForm.jsx:54 | after saving, tag and weight are cleared while section, pen and stage are kept |
| PigFormPage.ParsedPenIdMissesItsPen | src/pages/PigForm.jsx:33 | with `parseInt` as written, a digit-led pen UUID becomes a number that its own pen never matches in the occupancy count, and a letter-led one becomes NaN |
| PigFormPage.ParsedPenIdIsFedInTwoPens | src/pages/FeedingLog.jsx:18 | the parsed key is found by the feeding query as written, for its own pen and for another pen whose id starts with the same digit |
| PigFormPage.NewPigCountsInItsPen | src/pages/PigForm.jsx:28-41 | storing the pen id itself, the new pig counts in its pen's occupancy and is found by the feeding query by the pen's own id |
| JsNumbers.ParseInt | src/pages/PigForm.jsx:33 | parsing gives a number exactly when the text starts with a digit |
| JsNumbers.DigitIdsSurviveParsing | src/pages/PigForm.jsx:33 | only an all-digit id parses to its own value and compares equal to it |
| JsNumbers.KeyOf | src/pages/PigForm.jsx:33 | a parsed number is indexed under that number, and NaN is not indexed |
| JsNumbers.UuidsNeverEqualNumbers | src/components/MovePigsModal.jsx:41 | a hyphenated UUID never loosely equals a number |
| FarmSettings.HandleAddSection | src/pages/FarmSettings.jsx:20-29 | with `admin.manage` and a name, the section is added and the name cleared; otherwise nothing changes |
| FarmSettings.HandleAddPen | src/pages/FarmSettings.jsx:31-42 | with `admin.manage`, a name and a section, the pen is added and only its name cleared; otherwise nothing changes |
| FarmSettings.NewSectionIsPending | src/pages/FarmSettings.jsx:22-27 | a new section has the name, no deletion, and is pending |
| FarmSettings.NewPenIsPending | src/pages/FarmSettings.jsx:33-41 | a new pen has the section, the capacity, no deletion, and is pending |
| WeightTracker.HandleAddWeight | src/components/WeightTracker.jsx:19-37 | an empty or non-positive weight writes nothing and keeps the field; otherwise the log is added and the field cleared |
| WeightTracker.MeasuredLogFields | src/components/WeightTracker.jsx:24-31 | the stored log is pending, for the pig, with the positive weight and its measurement day |
| WeightTracker.ChartIsOldestFirst | src/components/WeightTracker.jsx:40-42 | the chart is a permutation of the logs in ascending measurement day |
| WeightTracker.Reverse | src/components/WeightTracker.jsx:45 | element i of the reverse is element n-1-i of the input |
| WeightTracker.ReverseKeeps | src/components/WeightTracker.jsx:45 | reversing keeps the elements |
| WeightTracker.ListIsNewestFirst | src/components/WeightTracker.jsx:44-45 | the list is a permutation of the logs in descending day, and is the chart read back to front |
| BiosecurityAccess.AccessForm.constructor | src/components/BiosecurityAccess.jsx:6-14 | empty fields, risk `Bajo`, no alert |
| BiosecurityAccess.AccessForm.SetRiskLevel | src/components/BiosecurityAccess.jsx:126-128 | the chosen level is set |
| BiosecurityAccess.AccessForm.HandleOriginChange | src/components/BiosecurityAccess.jsx:23-32 | the origin decides level `Alto` or `Bajo` and the alert, replacing a level chosen by hand |
| BiosecurityAccess.AccessForm.HandleSubmit | src/components/BiosecurityAccess.jsx:34-57 | a save happens exactly when the level is not `Alto` or the entry is authorised. Declining writes nothing and keeps the form; a save stores the form as a pending log with its entry time and clears the form |
| BiosecurityAccess.ContainsIsOccurrence | src/components/BiosecurityAccess.jsx:19 | `includes` holds exactly when the term occurs at some position |
| BiosecurityAccess.CheckRiskIsTermOccurrence | src/components/BiosecurityAccess.jsx:16-21 | an origin is risky exactly when, lower-cased, it contains one of the five risky terms |
| BiosecurityAccess.RiskIgnoresCase | src/components/BiosecurityAccess.jsx:19 | case does not change the risk |
| BiosecurityAccess.RiskyStaysRisky | src/components/BiosecurityAccess.jsx:16-21 | typing more after a risky origin keeps it risky |
| BiosecurityAccess.Examples | src/components/BiosecurityAccess.jsx:16-21 | "Otra Granja" is risky and "Casa" is not |
| Gamification.AddPoints | src/hooks/useGamification.js:7-23 | one pending row for `current-user` with the points (10 by default); a storage failure writes nothing and does not escape |
| Gamification.CurrentUserRows | src/hooks/useGamification.js:28 | a row is counted exactly when it belongs to `current-user` |
| Gamification.TotalIgnoresOrder | src/hooks/useGamification.js:29 | the sum does not depend on the rows' order |
| Gamification.WeeklyPointsIgnoresOrder | src/hooks/useGamification.js:26-30 | the weekly points are the same for any order the query returns |
| Gamification.NoRowsNoPoints | src/hooks/useGamification.js:26-34 | without rows the points are 0 |
| Gamification.AddingRaisesTotal | src/hooks/useGamification.js:7-30 | adding k points raises the weekly points by exactly k |
| Profitability.UsagesOf | src/hooks/useProfitability.js:21 | a usage is the pig's exactly when its `pig_id` is the pig |
| Profitability.EventsOf | src/hooks/useProfitability.js:35 | an event is the pig's exactly when its `pig_id` is the pig |
| Profitability.SumFeedCost | src/hooks/useProfitability.js:23-32 | the loop computes the feed cost of the usages |
| Profitability.ComputeStats | src/hooks/useProfitability.js:8-54 | the result is the figures for the pig (or the placeholder) from its feed and health costs |
| Profitability.NoPigShowsPlaceholder | src/hooks/useProfitability.js:57-63 | without a pig id or a pig: zeros and still loading |
| Profitability.ProfitFigures | src/hooks/useProfitability.js:15-40 | value is weight (0 when unknown) times 8000, total is feed plus health, profit is value less total, and profitable exactly when value exceeds the costs |
| Profitability.ReturnOnCost | src/hooks/useProfitability.js:49 | the return is 0 without positive costs; otherwise it is the profit over the costs in percent, to within 0.05, with the profit's sign |
| Profitability.FeedCostOfOneMore | src/hooks/useProfitability.js:28-31 | a usage whose feed is gone adds nothing; any other adds its amount times the feed's price |
| Profitability.FeedCostNonNegative | src/hooks/useProfitability.js:23-32 | non-negative amounts at non-negative prices cost nothing negative |
| Profitability.FeedCostWithoutFeeds | src/hooks/useProfitability.js:28-31 | when no usage's feed exists the feed cost is 0 |
| Profitability.HealthCostOfOneMore | src/hooks/useProfitability.js:36 | one more event raises the health cost by its cost |

## Left out

- Network I/O: the sync and login `fetch` calls are input values (`SyncResponse`, `LoginResponse`). Network-only screens (super-admin dashboard, farm details, farm users, daily tasks, breeding check, login page) are not part of this model.
- Sync of tables other than `pigs` and `health_records`, the Authorization header, tombstones and duplicate merging: the code has none of them.
- Sync triggers (interval, online listener, the fire-and-forget sync after a pen move) and overlapping cycles: interleavings are not modelled. `sync` has no re-entrancy guard.
- Storage exceptions and transaction aborts: each transaction is one atomic update of the tables, and a failing store call is not modelled. The one exception is `Gamification.AddPoints`, where the failure is a parameter.
- Floating point: quantities are reals, `parseFloat` gives a value or nothing, and `toFixed` is rounding half away from zero. Binary rounding effects are not modelled.
- Dates: JavaScript `Date` parsing, time zones, daylight-saving shifts and the local-midnight truncation in the withdrawal badge are not modelled. Dates are day numbers.
- JSON (de)serialisation, the database schema declarations, UUID generation: ids are fresh parameters.
- Presentation-only components (cost dashboard, toasts, skeletons, transitions, install prompt, pig list display sort, low-stock filter, inventory form): no state rules.
- FeedingLog.ActivePigIds: the query is modelled by the pen's own id, the corrected form of `src/pages/FeedingLog.jsx:18`; the loose `==` on pen and section ids in `MovePigsModal` and `FeedingLog` is modelled as equality of ids. Only `PigFormPage.AsWrittenPenKey`, `FeedingLog.AsWrittenActivePigIds` and `Inventory.AsWrittenConsumption` follow the code's `parseInt` as written (see Findings); every other member uses the corrected ids.
- FeedingLog.HandleMassFeed: each usage row stores the pen's id, not `parseInt(penId)` as `src/pages/FeedingLog.jsx:50` writes it; nothing in this model reads a usage's `pen_id`.
- JsNumbers.LooseEquals: JavaScript's `==` between a number and a text is modelled for all-digit texts and hyphenated UUIDs only, the two forms ids take here. Texts with blanks, a decimal point, an exponent, a hex prefix, and the empty text (`0 == ""` holds) convert to numbers in JavaScript and are not modelled.
- BiosecurityAccess.CheckRisk: lower-casing covers ASCII letters only.
- WeightTracker.ChartData: a log without `date_measured` sorts as day 0; the source's comparator yields NaN for it, so the lemmas require every log to have a date.
- WeightTracker.HandleAddWeight: text that is not a number is taken as an empty field.
- BreedingManager.SortedNewestFirst: the sort's stability (the order of events on the same day) is not stated.
- RoleSettings.GroupIsCategoryFilter: the order of the groups themselves is not stated.
- Profitability.HealthCost: costs are read as stored numbers, because every writer stores a number (0 when the cost does not parse). The parse-or-0 on read is the identity on them.
- Profitability.ComputeStats: the placeholder's fields that the source leaves unset read as 0 and false.
- PigFormComponent.HandleSubmit: the error messages are outcome values; the display of errors is not modelled.
- PigFormComponent.NewPig: `peso` is stored as the typed text; the model stores the number that text denotes (None when empty). Readers of `peso` are not part of this model.

## Findings

| source | as written | input that shows it | evidently intended | confidence | as-written member | corrected member |
|---|---|---|---|---|---|---|
| src/pages/PigForm.jsx:33 | the new pig's `pen_id` is `parseInt` of the pen id, while pen ids are UUIDs (src/pages/FarmSettings.jsx:34) | pen "3f0c9a1e-7d42-4b8e-9a61-2c5d8e4f7a10" stores `pen_id` 3, which loosely equals no UUID, so the pig is not counted in its pen's occupancy (src/components/MovePigsModal.jsx:41); a letter-led UUID stores NaN. The feeding query parses the same way and does find it, under every pen whose id starts with 3 (`PigFormPage.ParsedPenIdIsFedInTwoPens`), so this line and src/pages/FeedingLog.jsx:18 and :50 must be corrected together | store the pen id as chosen | not executed; high, the move dialog stores the id unparsed for this reason | PigFormPage.ParsedPenIdMissesItsPen | PigFormPage.NewPigCountsInItsPen |
| src/pages/FeedingLog.jsx:18 | the pen's pigs are queried with `pen_id: parseInt(penId)`, while pen ids are UUIDs and the move dialog stores the text id (src/components/MovePigsModal.jsx:70) | pigs moved into pen "3f0c9a1e-7d42-4b8e-9a61-2c5d8e4f7a10" have `pen_id` equal to that text, and the query asks for the number 3, which the store never equals to a text: no moved pig is fed, and the page reports no active pigs | query by the pen id as chosen | not executed; high, the store compares keys strictly | FeedingLog.MovedPigIsNotFed | FeedingLog.MovedPigsAreFed |
| src/hooks/useInventory.js:24 | the item is looked up by `parseInt(feedId) \|\| feedId`, while feed ids are UUIDs (src/hooks/useInventory.js:8) | an item with id "3f0c9a1e-7d42-4b8e-9a61-2c5d8e4f7a10" and 10 kg of stock is looked up under key 3, and consuming 1 kg throws 'Feed item not found' | look the item up by its id | not executed; high for digit-led UUIDs, letter-led ones parse to NaN and fall back to the id | Inventory.DigitLedFeedIdIsNotFound | Inventory.ExistingItemIsFound |

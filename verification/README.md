# Ferrofin: verified models of the collation overlay, the adoption gates and the release gates

This project models the parts of Ferrofin that decide something on their own and proves what they
promise. Every model follows the code's branches, constants and error cases; code that updates
state in place is modelled by classes and methods, the rest by functions.

- **Search collation data** (`CodePointTrie`, `TrieLayout`, `JamoOverlay`): the multi-level
  code-point-trie lookup, which reads back any map a trie is laid out from, and the copy-on-write
  overlay of the 67 modern Jamo of section 3.12 of the Unicode Standard. The overlay is proved to
  change those code points and no other exactly as far as no other lookup reads index slot 64; a
  concrete trie shows the damage when one does.
- **Watch-history adoption** (`Orphans`, `Dates`, `DateOrder`, `DateFormula`, `UserData`,
  `WinnerFacts`, `UserDataTable`, `HarmonizeRepair`, `OrphanMigration`, `WatchHistory`,
  `AdoptionGate`, `ResumedAdoption`): the orphan closure, the two readings of a date, the winner rule, the paged one-time repair and
  migration 0042 of the server on one side, the gate's baseline and comparison on the other. The
  gate accepts exactly the databases that preserve the predicted history; what the server does in
  one boot is accepted, and it is known exactly when a repair stopped any number of times is.
- **Table digests** (`TextSearch`, `FolderText`, `TableDigests`, `TableChanges`, `TableRekey`):
  normalised rows, the multiset comparison, which changes it reports, composition of clean comparisons, and re-keyed items.
- **Benchmark evidence and verdicts** (`ScreenRun`, `ShapeEvidence`, `EvidenceMeans`,
  `MeasuredRun`, `ResourceWindows`, `OrderStatistics`, `VerdictRule`, `VerdictExact`, `EndpointGate`,
  `EndpointFacts`, `SoakSlope`): the load generator's virtual user and the validators of its log, sampled windows, percentiles, the D4
  verdict, the endpoint gate and the least-squares slope.
- **Text and log machines** (`LogLines`, `BaseUrl`, `RouteFacts`, `PathSegments`, `Redirects`,
  `RedirectClients`, `AdoptionReport`, `ReadmeBlock`): record lines, the base-URL mount and what clients make of its
  redirects, the event-log fold and the generated README block.

`Options` and `Sequences` hold what the models share.

Where code and documentation disagree the model follows the code:

- `row_verdict` is documented as failing a row whose checks failed "whatever it says"
  (gates/adoption/adoption_report.py:181); the code overrides PASS only. `SkipHidesFailure` says
  what a skipping row then does to the run.
- The repair is documented to leave a harmonized group agreeing, so that it drops out of the query
  (crates/ferrofin-core/src/adoption_repairs.rs:2942-2944). `HarmonizedAgrees` and
  `HarmonizeIdempotent` give the exact condition: the winner's booleans were stored as 0 or 1.
- The redirect of the base-URL middleware is meant to lead into the mount.
  `RedirectReachesRouter` gives the exact condition on the base, `NetworkBaseLeaves` and
  `RedirectLoops` what happens otherwise.
- A fixture that began and has no row is documented to be shown unfinished
  (gates/adoption/adoption_report.py:96-98). `UnfinishedIff` and `RowlessFails` give the exact
  condition, `BeginPasses` an event that breaks it.

## Model

| member | source | states |
|---|---|---|
| CodePointTrie.JamoListed | tools/generate-search-collation-data.py:75-77 | the record list is L, V and T Jamo in order, 67 in all, and gives each of them, and only those, its own record |
| CodePointTrie.JamoBlocks | tools/generate-search-collation-data.py:86-89 | exactly seven of the 32 blocks of U+1000..U+11FF hold a Jamo, named |
| CodePointTrie.BlocksBeforeValue | tools/generate-search-collation-data.py:86-93 | how many private blocks precede each block, seven in all |
| TrieLayout.HighDigit | tools/generate-search-collation-data.py:52-55 | the two high bits of each of eight 18-bit offsets are read from where they were packed |
| TrieLayout.LeafReads | tools/generate-search-collation-data.py:50-57 | a 16-bit or 18-bit index-3 block gives each of its 32 positions the offset stored for it |
| TrieLayout.ReadsBack | tools/generate-search-collation-data.py:42-58 | a trie laid out from a plain map, in 64-value blocks, index-1/2/3 chains of 16-value blocks and a tail, reads the map back at every code point |
| TrieLayout.LayOutLaidOut | tools/generate-search-collation-data.py:42-58 | such a trie for any map constant from U+1200 on, with one 18-bit block at any offset |
| JamoOverlay.LookupMovesIffDisturbed | tools/generate-search-collation-data.py:42-58 | above U+11FF and below highStart a lookup keeps its data cell if and only if it does not read slot 64 as anything but the root, 18-bit index-3 blocks included |
| JamoOverlay.OutsideUnchanged | tools/generate-search-collation-data.py:44-47 | below U+1000 and in the high and error tail every code point reads its old value |
| JamoOverlay.PrivateRows | tools/generate-search-collation-data.py:79-93 | every code point of U+1000..U+11FF reads its new record or its old value, whatever else reads slot 64 |
| JamoOverlay.OverlayLookup | tools/generate-search-collation-data.py:98-101 | all 0x110000 code points read what they are owed unless disturbed, and a disturbed one moves |
| JamoOverlay.OverlayUnique | tools/generate-search-collation-data.py:79-97 | the trie the generator builds is determined by its input |
| JamoOverlay.RecordsRead | tools/generate-search-collation-data.py:75-101 | when every code point reads what it is owed, the i-th modern Jamo reads the i-th of the last 67 records |
| JamoOverlay.OthersRead | tools/generate-search-collation-data.py:98-101 | and every other code point reads what it read |
| JamoOverlay.OverlayWellFormed | tools/generate-search-collation-data.py:24-32 | without disturbed lookups the result is again a trie the emitter accepts |
| JamoOverlay.AliasedWellFormed | tools/generate-search-collation-data.py:74-95 | a trie that passes every assertion but the last and has a disturbed lookup |
| JamoOverlay.AliasedDamaged | tools/generate-search-collation-data.py:98-101 | the overlay of that trie changes U+4000, which is no Jamo |
| JamoOverlay.SearchData.ExtendIndex | tools/generate-search-collation-data.py:79-85 | the index becomes the old one with slot 64 redirected, the private index-2 copy with its ninth word redirected, and the private index-3 block |
| JamoOverlay.SearchData.CopyBlocks | tools/generate-search-collation-data.py:86-93 | seven private blocks of the wanted values are appended, the old data stays a prefix, or the size assertion stops it |
| JamoOverlay.SearchData.Build | tools/generate-search-collation-data.py:79-97 | the whole growth and exactly which size assertion fails |
| JamoOverlay.SearchData.Verify | tools/generate-search-collation-data.py:98-101 | the run-time loop passes only if every code point is right, and names a disturbed one otherwise |
| JamoOverlay.SearchData.OverlayModernJamo | tools/generate-search-collation-data.py:61-103 | which assertion stops the generator, exactly, as a condition on its input; the result is the overlaid trie as a function of the input, and on success the 67 modern Jamo read the last 67 records in order and every other code point what it read |
| Orphans.Closure | gates/adoption/metadata.py:37-52 | the recursive query ends on every graph in a set closed under children and owned items |
| Orphans.OrphansLeast | gates/adoption/metadata.py:88-96 | the orphan set is the least set with every dangling item, closed under children and owned items |
| Orphans.OrphanIffChained | gates/adoption/metadata.py:37-52 | an item is an orphan if and only if a chain of links leads to it from a dangling item |
| Orphans.SurvivorsIntact | gates/adoption/metadata.py:88-96 | after the removal no survivor has a missing parent or a removed owner, and nothing is left to remove |
| Orphans.SelfContainedSurvive | crates/ferrofin-db/migrations/0042_orphaned_parent_cleanup.sql:39-41 | a group hanging off nothing outside itself, cycles included, survives |
| DateOrder.TickTextAgrees | gates/adoption/watch_history.py:53-77 | on stored dates equality and order of the padded text are equality and order of the instants |
| DateOrder.SeparatorMatters | gates/adoption/watch_history.py:71-77 | the T spelling of any such date is the same instant and another text |
| DateFormula.InstantFormula | gates/adoption/watch_history.py:53-68 | a date without zone is read as the nanoseconds its digits spell in the Gregorian calendar since 1970, in UTC |
| DateFormula.YearFormula | gates/adoption/watch_history.py:53-68 | leap days every four years, but every hundred, but every four hundred |
| DateFormula.ZoneShifts | gates/adoption/watch_history.py:65-68 | a zone moves the instant by its minutes, east earlier, and a zone of a day or more is refused |
| DateFormula.ZoneMeans | gates/adoption/watch_history.py:31 | hours and minutes behind a sign, with a colon or without, or Z |
| DateFormula.ValidIff | gates/adoption/watch_history.py:67 | which dates there are |
| DateFormula.PaddedInstant | gates/adoption/watch_history.py:62 | white space around a date is stripped |
| UserData.LosesTotal | gates/adoption/watch_history.py:93-104 | the winner rule is asymmetric and decides every two rows with distinct keys |
| UserData.LosesTransitive | crates/ferrofin-core/src/adoption_repairs.rs:3085-3091 | the winner rule is transitive |
| UserData.FirstMaxWins | gates/adoption/watch_history.py:113 | the row Python's max picks beats every other row |
| UserData.LastMaxWins | crates/ferrofin-core/src/adoption_repairs.rs:3046-3048 | the row Rust's max_by picks beats every other row |
| UserData.WinnerIndependent | gates/adoption/watch_history.py:107-118 | both pick the same row whatever order the rows come in |
| WinnerFacts.LatestPlayWins | gates/adoption/watch_history.py:93-113 | the winner is the latest instant, an undated row only if none is dated; then the most played, then the furthest, then the lowest key |
| WinnerFacts.HarmonizedColumns | gates/adoption/watch_history.py:107-118 | column by column, every other row of a conflicting group holds the winner's nine values, booleans as 0 or 1, and nothing else changes |
| WinnerFacts.SelectedIffConflicting | crates/ferrofin-core/src/adoption_repairs.rs:2899-2914 | the query's MIN and MAX over padded dates select exactly the groups the gate calls conflicting |
| UserData.HarmonizeRepairs | crates/ferrofin-core/src/adoption_repairs.rs:3051-3075 | updating by key and updating by position give the same group |
| UserData.HarmonizedAgrees | gates/adoption/watch_history.py:107-118 | the repaired group still conflicts if and only if the winner's booleans were not 0 or 1 |
| UserData.HarmonizeIdempotent | gates/adoption/watch_history.py:107-118 | repairing twice is repairing once if and only if the winner's booleans were 0 or 1 or it has the lowest key |
| UserData.StoredTwoConflicts | gates/adoption/watch_history.py:113-118 | a winner that stores 2 as its played flag: the repaired group still conflicts and a second repair changes it |
| UserData.HarmonizePermutes | gates/adoption/watch_history.py:107-118 | permuting a group permutes its repair |
| UserDataTable.GroupAfter | crates/ferrofin-core/src/adoption_repairs.rs:2989-3004 | after any number of pages each group is harmonized or untouched, by its place in key order |
| UserDataTable.KeyedAfter | crates/ferrofin-core/src/adoption_repairs.rs:2989-3004 | a partly repaired table keeps its primary key and can be repaired on |
| UserDataTable.ThirdRepair | gates/adoption/watch_history.py:107-118 | a third repair of a group never differs from the second |
| UserDataTable.ResumedRepair | crates/ferrofin-core/src/adoption_repairs.rs:2940-2944 | for every table and any number of boots, each stopped after any page, the one that finishes ends with the result of an undisturbed run if and only if every conflicting group one of them had reached has a winner whose booleans are 0 or 1 or that has the lowest key |
| HarmonizeRepair.RepairNext | crates/ferrofin-core/src/adoption_repairs.rs:3038-3076 | repairing the next selected group equals repairing every group up to it: those skipped had no conflict |
| HarmonizeRepair.RepairDone | crates/ferrofin-core/src/adoption_repairs.rs:2997-3005 | when the query is exhausted the whole table is harmonized |
| HarmonizeRepair.PageStable | crates/ferrofin-core/src/adoption_repairs.rs:3000 | a page queried on the partly repaired table is the page of the original one |
| HarmonizeRepair.PageProgress | crates/ferrofin-core/src/adoption_repairs.rs:2989-3004 | every page reaches rows no earlier page did, so the loop ends |
| HarmonizeRepair.Database.NextGroup | crates/ferrofin-core/src/adoption_repairs.rs:2899-2914 | the least conflicting group after the key, or none |
| HarmonizeRepair.Database.ConflictingGroups | crates/ferrofin-core/src/adoption_repairs.rs:3015-3028 | the page is the next groups in key order without a gap, short only at the end |
| HarmonizeRepair.Database.HarmonizeGroups | crates/ferrofin-core/src/adoption_repairs.rs:3032-3079 | one transaction moves the repaired prefix to the end of the page |
| HarmonizeRepair.Database.HarmonizeInPartitions | crates/ferrofin-core/src/adoption_repairs.rs:2968-3012 | a finished run leaves every group harmonized once and the marker set; a stopped one a repaired prefix and no marker |
| OrphanMigration.KeptIsFirst | crates/ferrofin-db/migrations/0042_orphaned_parent_cleanup.sql:91-97 | the row MIN(rowid) keeps is the first of its user and key in the table as it was |
| OrphanMigration.MigrateLeaves | crates/ferrofin-db/migrations/0042_orphaned_parent_cleanup.sql:76-102 | exactly which rows are left: live items' rows, unreplaced placeholder rows, first rows moved |
| OrphanMigration.MigrateKeyed | crates/ferrofin-db/migrations/0042_orphaned_parent_cleanup.sql:66-102 | moving rows to the placeholder never breaks the primary key |
| OrphanMigration.MigrateGroup | crates/ferrofin-db/migrations/0042_orphaned_parent_cleanup.sql:83-102 | a surviving item's rows stay as they were, in order |
| WatchHistory.Collect | gates/adoption/watch_history.py:140-152 | the dictionaries hold the surviving groups, the placeholder's rows and the first row per user and key of the orphans |
| WatchHistory.GroupPlaceholder | gates/adoption/watch_history.py:153-155 | the merged placeholder rows become one group per user and nothing else changes |
| WatchHistory.AddLines | gates/adoption/watch_history.py:159-165 | a group's lines enter the row dictionary under their names and disturb no other group |
| WatchHistory.Flatten | gates/adoption/watch_history.py:156-167 | the row dictionary lists every group's lines, or fails exactly when a conflicting group's date does not parse |
| WatchHistory.Baseline | gates/adoption/watch_history.py:121-180 | the baseline lists exactly the predicted rows and the names of those moved |
| WatchHistory.Reading | gates/adoption/watch_history.py:121-180 | the reading lists exactly the stored rows, and the placeholder's with the date reduced |
| AdoptionGate.CompareDb | gates/adoption/watch_history.py:183-192 | the two counters are the numbers of predicted rows missing and changed |
| AdoptionGate.AcceptsIff | gates/adoption/watch_history.py:183-192 | no failure if and only if every predicted row is found unchanged |
| AdoptionGate.GateExact | gates/adoption/watch_history.py:121-192 | the gate passes a database if and only if it holds every predicted row: any loss or change fails it |
| AdoptionGate.AdoptedRecords | crates/ferrofin-db/migrations/0042_orphaned_parent_cleanup.sql:76-102 | exactly which rows migration and repair together leave |
| AdoptionGate.AdoptedKeyed | crates/ferrofin-db/migrations/0042_orphaned_parent_cleanup.sql:66-102 | the adopted table keeps its primary key |
| AdoptionGate.AdoptionPreserves | gates/adoption/watch_history.py:121-133 | the adoption preserves the prediction if and only if the placeholder item is not itself deleted or has nothing to lose |
| AdoptionGate.PlaceholderSafe | gates/adoption/metadata.py:37-52 | a placeholder without parent and owner is never an orphan |
| AdoptionGate.AdoptionPassesGate | gates/adoption/watch_history.py:121-192 | for every library and history the adopted database passes the gate |
| AdoptionGate.OrphanedPlaceholderLoses | crates/ferrofin-db/migrations/0042_orphaned_parent_cleanup.sql:83-102 | an orphaned placeholder with any row fails the gate |
| ResumedAdoption.ResumedPreserves | crates/ferrofin-core/src/adoption_repairs.rs:2940-2944 | an adoption stopped any number of times, each after any page, and then finished preserves the prediction if and only if every surviving group reached was stable under a second repair |
| ResumedAdoption.ResumedPassesGate | gates/adoption/watch_history.py:121-192 | and exactly then it passes the gate, for every library and history |
| FolderText.ReplaceFirst | gates/adoption/table_digests.py:147-150 | replacing acts at the first match and on the rest behind it |
| FolderText.MoveThenName | gates/adoption/table_digests.py:145-151 | moving a metadata folder to a new id and naming it gives what naming the old one gave, for every text without the new folder |
| TableDigests.TableRows | gates/adoption/table_digests.py:119-166 | the reading of a table, the columns it holds, and exactly when a missing table, a missing primary key or a row without a key column is reported instead |
| TableDigests.ReadRecords | gates/adoption/table_digests.py:134-166 | the loop files every kept record's normalised row under its key and its clean pair |
| TableDigests.GroupedCount | gates/adoption/table_digests.py:162-163 | a key's group holds each of its rows as often as the table does |
| TableDigests.CompareKey | gates/adoption/table_digests.py:194-207 | the one-row shortcut and the counter difference both decide multiset inclusion, with the right failure and count |
| TableDigests.CompareRows | gates/adoption/table_digests.py:194-207 | the failures are exactly those of the keys whose rows are not included |
| TableDigests.CompareClean | gates/adoption/table_digests.py:208-216 | the failures are exactly the derived values that neither stayed nor became what their source derives to |
| TableDigests.CompareTable | gates/adoption/table_digests.py:188-217 | nothing is reported if and only if columns, rows and derived values are unharmed; lost columns are named once and end the table |
| TableDigests.Compare | gates/adoption/table_digests.py:185-217 | two snapshots compare clean if and only if every table does |
| TableDigests.RowsIncludedIff | gates/adoption/table_digests.py:194-207 | whatever the keys, the rows compare clean if and only if the normalised rows are included as a multiset |
| TableDigests.LossReported | gates/adoption/table_digests.py:119-125 | losing any compared record is reported, whatever shares its key |
| TableChanges.ChangeReported | gates/adoption/table_digests.py:85-166 | changing a compared value of any compared record is reported, over the stored cells: other numbers, texts of other GUIDs, dates of other instants |
| TableChanges.ChangeOverlooked | gates/adoption/table_digests.py:85-166 | and any other change to an ordinary column leaves the row compared the same |
| TableChanges.KeptIff | gates/adoption/table_digests.py:138-139 | which records are compared: those of no user or of a known one |
| TableChanges.StrangersIgnored | gates/adoption/table_digests.py:138-139 | a record of a user that no longer exists makes no difference |
| TableChanges.DamageReported | gates/adoption/table_digests.py:208-216 | a derived value that neither stays nor becomes what its source derives to is reported, for every record that is the last of its key |
| TableChanges.KeyText | gates/adoption/table_digests.py:162 | a row is filed under its key columns, printed, with slashes between them |
| TableChanges.UnkeyedIff | gates/adoption/table_digests.py:140-162 | a row lacks a key column if and only if the column is not hashed or was dropped for its device |
| TableChanges.DeviceResetReported | gates/adoption/table_digests.py:43-47 | on a device the harness did not log in from, a reset token, a deactivation or a new id is reported |
| TableChanges.ReloginIgnored | gates/adoption/table_digests.py:141-143 | on one it did, those and the creation date are not compared |
| TableChanges.AnnouncedIgnored | gates/adoption/table_digests.py:35-40 | what every request re-announces is never compared |
| TableRekey.ComposesIff | gates/adoption/table_digests.py:185-217 | for every three readings, shared keys included: a to b clean and b to c clean make a to c clean if and only if no value repaired in b is kept in c while its source derives to something else there |
| TableRekey.CleanComposes | gates/adoption/table_digests.py:185-217 | so they compose where no key is shared in the last database and no source is GUID-shaped |
| TableRekey.RespelledBreaks | gates/adoption/table_digests.py:158-165 | why source texts must not be GUID-shaped: a repaired value re-spelled passes both steps and fails over the two, for every record |
| TableRekey.SharedKeyBreaks | gates/adoption/table_digests.py:162-165 | why keys must not be shared: a second record of the repaired one's key brings its own source, both steps pass and the two together fail |
| TableRekey.ItemValuesSource | gates/adoption/table_digests.py:56 | ItemValues meets the condition on the derived column's source |
| TableRekey.ItemTables | gates/adoption/table_digests.py:71-82 | the item-keyed tables are exactly those with the settings the two re-key results need |
| TableRekey.IdentityIff | gates/adoption/table_digests.py:110-116 | an id is known by a path if and only if it is the id of an item with an owner, the two ids that mean none aside, and with a path no other item has |
| TableRekey.IdentityInjective | gates/adoption/table_digests.py:110-116 | two items never share an identity |
| TableRekey.RenamedIdentities | gates/adoption/table_digests.py:110-116 | new ids carry the identities over and make no others |
| TableRekey.RekeyInvisible | gates/adoption/table_digests.py:110-151 | items with an owner and alone on their path, moved to new ids with their folders, leave every item-keyed table's reading identical |
| TableRekey.UnownedRekeyReported | gates/adoption/table_digests.py:110-151 | an item without an owner, or not alone on its path, re-keyed away from rows it has, is always reported |
| ScreenRun.KeyAt | gates/bench/screens.js:82-91 | each key numbers its request among those of its name in the iteration |
| ScreenRun.KeysDistinct | gates/bench/screens.js:82-96 | no two requests of an iteration share a key |
| ScreenRun.Vu.RequestKey | gates/bench/screens.js:82-91 | the key carries the occurrence so far and the counter moves on |
| ScreenRun.Vu.Record | gates/bench/screens.js:92-120 | one request more is counted, keyed and, in a shape pass, logged |
| ScreenRun.Vu.Open | gates/bench/screens.js:250 | a screen's requests leave their keys, their log lines and the conjunction of their results |
| ScreenRun.Vu.Iterate | gates/bench/screens.js:242-255 | an iteration logs its observations and its selection, whatever state it started from |
| ShapeEvidence.ChosenFits | gates/bench/screens.js:242-255 | the machine's selections are slot by slot what the validator expects |
| ShapeEvidence.ChosenScoped | gates/bench/screens.js:92-96 | no request of a pass has the bare name "image": every image is named with its screen |
| ShapeEvidence.KeysOnce | gates/bench/report.py:200-204 | no key occurs twice in a whole pass |
| ShapeEvidence.CompletePassAccepted | gates/bench/report.py:183-214 | every interleaving of a complete pass, with lines the validator does not count anywhere, is accepted |
| ShapeEvidence.IndexedBySlot | gates/bench/report.py:205 | the index gives every slot its own selection |
| ShapeEvidence.OmissionRefused | gates/bench/report.py:194-204 | leaving out one line is refused if the validator counts it, and not otherwise |
| ShapeEvidence.AdditionRefused | gates/bench/report.py:194-204 | repeating or adding one line is refused if the validator counts it, and not otherwise: unreadable lines and observations under the bare name "image" are not counted |
| ShapeEvidence.ForeignImageAccepted | gates/bench/report.py:201-203 | a foreign observation under the bare name "image" leaves a complete pass accepted, whatever its key |
| EvidenceMeans.ValidKeys | gates/bench/report.py:200-204 | in every accepted log each listed key is shown by exactly one counted line, and each counted line shows a listed key |
| EvidenceMeans.ValidRecords | gates/bench/report.py:156-199 | every selection of an accepted log is its slot's, by the right one of two different users, in the run described |
| EvidenceMeans.ValidSlots | gates/bench/report.py:196-199 | every slot has exactly one selection line |
| EvidenceMeans.ValidTotal | gates/bench/report.py:203-204 | as many counted lines as requests were made |
| EvidenceMeans.SubstitutionRefused | gates/bench/report.py:200-204 | exchanging the key of one counted observation for one nobody showed is refused |
| MeasuredRun.SelectionProblems | gates/bench/report.py:217-243 | no problem if and only if every record of the run is clean; otherwise exactly which complaint goes to all screens, or to each screen its last one |
| MeasuredRun.WalkRecords | gates/bench/report.py:229-243 | the walk is stopped if and only if some record was not validated, and otherwise leaves each screen its last complaint |
| MeasuredRun.CleanIterations | gates/bench/report.py:230-243 | every iteration of a clean run opened its slot's screen and issued exactly the validated keys |
| MeasuredRun.MixWeights | gates/bench/screens.js:36-37 | the mix is 3:2:2:1:1:1 |
| MeasuredRun.CleanRounds | gates/bench/screens.js:242-255 | every full round of a clean run opened each entry of the mix exactly once |
| MeasuredRun.CleanActors | gates/bench/report.py:156-165 | with isolated users every clean record is its role's, by its own user |
| MeasuredRun.CleanTotals | gates/bench/report.py:217-228 | the summary of a clean run counts its records and their requests |
| ResourceWindows.JudgeWindow | gates/bench/report.py:370-394 | a window is accepted if and only if it is soundly bracketed, without a gap and with a rising counter, and each refusal names the first fault; the CPU is that of the bracket |
| ResourceWindows.MaxGap | gates/bench/report.py:378-379 | the largest gap exceeds a limit if and only if some neighbouring samples do |
| ResourceWindows.AcceptedCovers | gates/bench/report.py:370-388 | each instant of an accepted window lies between neighbouring samples within the gap limit, both ends within the bracket |
| ResourceWindows.CpuTelescopes | gates/bench/report.py:385-389 | the CPU is the sum of the sampled increments, none negative |
| ResourceWindows.NestedCpu | gates/bench/report.py:385-389 | an accepted window inside another never has more CPU |
| OrderStatistics.SortMonotone | gates/bench/endpoints.py:104 | raising samples raises every order statistic |
| OrderStatistics.MedianMonotone | gates/bench/gate.py:191 | raising samples never lowers the median |
| OrderStatistics.PercentileBounds | gates/bench/endpoints.py:100-108 | a percentile lies between the least and the greatest sample |
| OrderStatistics.PercentileMonotone | gates/bench/endpoints.py:100-108 | the percentile grows with q |
| OrderStatistics.PercentileRaised | gates/bench/endpoints.py:100-108 | raising samples never lowers a percentile |
| OrderStatistics.PercentilePermutes | gates/bench/endpoints.py:100-108 | the order of the samples is irrelevant |
| OrderStatistics.PercentileMedian | gates/bench/endpoints.py:100-108 | the 50th percentile is the median, for odd and even counts |
| OrderStatistics.PercentileAt | gates/bench/endpoints.py:104-105 | the q-th percentile stands at the rank that is q hundredths of the last one |
| OrderStatistics.AtPart | gates/bench/endpoints.py:106-108 | between two ranks it moves in proportion |
| VerdictRule.VerdictMonotone | gates/bench/gate.py:187-203 | raising candidate values never moves the verdict towards improved |
| VerdictRule.HigherIsMirror | gates/bench/gate.py:194-202 | higher-is-better is the exact mirror of lower-is-better |
| VerdictRule.ImprovedSwaps | gates/bench/gate.py:187-203 | an improvement is a regression seen from the other side if and only if the improved median is not zero |
| VerdictRule.ZeroMedianUnjudged | gates/bench/gate.py:191-203 | 10 falling to 0 is improved, 0 rising to 10 is within noise |
| VerdictExact.VerdictMeans | gates/bench/gate.py:187-203 | the verdict is noise unless the medians differ by more than the absolute threshold and by more than the relative one, and more than half of the pairs moved that way; then it is regressed or improved by the sign |
| VerdictExact.VerdictFigures | gates/bench/gate.py:191-196 | the difference and the number of pairs that went the wrong way |
| VerdictExact.VerdictPercent | gates/bench/gate.py:193 | the percentage, and that there is none against a zero median |
| EndpointGate.UniformStatus | gates/bench/endpoints.py:259-262 | the one status of all answers, if there is exactly one |
| EndpointGate.ProblemExact | gates/bench/endpoints.py:265-282 | no problem if and only if every run measured the endpoint with one target and one uniform status |
| EndpointGate.EndpointVerdicts | gates/bench/gate.py:246-276 | a row per endpoint named anywhere, and the blocking stand-in if and only if none gates |
| EndpointGate.RowPasses | gates/bench/gate.py:256-272 | a row passes if and only if its endpoint was measured alike in all runs of both sides and did not regress |
| EndpointGate.PassingFailsClosed | gates/bench/gate.py:292-294 | nothing blocks if and only if some endpoint gates and every gating endpoint passed |
| EndpointFacts.PassedIff | gates/bench/gate.py:256-272 | an endpoint passes if and only if every run of both sides has it, measured, unskipped, with one target and one status, and its p50 values did not regress |
| EndpointFacts.SessionPasses | gates/bench/gate.py:246-294 | nothing blocks a session if and only if some run has a gating endpoint and every endpoint that gates in any run passes by its own band, or by the common one |
| SoakSlope.NormalEquations | gates/bench/soak.py:48-52 | what the slope leaves sums to zero and is orthogonal to the times |
| SoakSlope.ErrorDecomposes | gates/bench/soak.py:40-52 | any line's error is the fitted line's plus the squared distance between the lines |
| SoakSlope.FittedIffSpread | gates/bench/soak.py:49-51 | a slope exists if and only if two times differ |
| SoakSlope.LeastSquares | gates/bench/soak.py:40-52 | no line has a smaller sum of squared errors and every other line has a larger one |
| SoakSlope.ExactOnLines | gates/bench/soak.py:40-52 | samples on a line get exactly its slope |
| SoakSlope.SlopeShifts | gates/bench/soak.py:40-52 | shifting all times or all memory values changes nothing |
| SoakSlope.SlopeOfTimes | gates/bench/soak.py:45-46 | taking times from the first sample changes nothing |
| SoakSlope.SlopeExists | gates/bench/soak.py:43-51 | a slope is given if and only if two samples have different times |
| SoakSlope.MibPerHour | gates/bench/soak.py:40-52 | memory that grows by so many MiB in every hour has that slope |
| LogLines.Neutralize | apps/ferrofin-server/src/log_lines.rs:67-84 | the borrowed path and the copying path give the same bytes, and which is taken |
| LogLines.RecordLinesWriter.Write | apps/ferrofin-server/src/log_lines.rs:53-58 | one event reaches the sink neutralized and the input length is reported |
| LogLines.RecordLinesWriter.WriteAll | apps/ferrofin-server/src/log_lines.rs:52-58 | a run's events reach the sink in order |
| LogLines.NeutralizedNoCarriageReturn | apps/ferrofin-server/src/log_lines.rs:73-79 | no carriage return is written |
| LogLines.EventLines | apps/ferrofin-server/src/log_lines.rs:26 | of the lines of an event all but the first are indented |
| LogLines.EventIsRecord | apps/ferrofin-server/src/log_lines.rs:67-84 | an event alone reads back as one record |
| LogLines.EventIndent | apps/ferrofin-server/src/log_lines.rs:67-84 | a written event starts indented if and only if the event did |
| LogLines.OneRecordPerEvent | apps/ferrofin-server/src/log_lines.rs:28-34 | a log reads back as exactly one record per event, and as fewer if and only if a later event starts with the indent |
| LogLines.RestoredIffNoCarriageReturn | apps/ferrofin-server/src/log_lines.rs:65-84 | un-indenting gives the event back if and only if it held no carriage return |
| BaseUrl.NormalizeNormal | crates/ferrofin-networking/src/network_configuration.rs:230-243 | normalising gives a normal base |
| BaseUrl.NormalizeFixed | crates/ferrofin-networking/src/network_configuration.rs:230-243 | exactly the normal bases are fixed points |
| RouteFacts.NormalizeKeeps | crates/ferrofin-networking/src/network_configuration.rs:230-243 | normalising puts a slash in front where there is none and takes those at the end away, and does nothing else |
| BaseUrl.Rewrite | apps/ferrofin-server/src/base_url.rs:16-82 | the request is rewritten, redirected or refused as routed, its query kept and the inner Location mounted; a Location that is a network path or does not start with a slash comes back exactly as the inner router gave it |
| RouteFacts.SameTextIff | apps/ferrofin-server/src/base_url.rs:23-31 | paths are compared letter by letter in any case |
| RouteFacts.Untouched | apps/ferrofin-server/src/base_url.rs:22-27 | without a base, and on the two probes in any case, nothing is rewritten |
| RouteFacts.UnderMount | apps/ferrofin-server/src/base_url.rs:29-68 | under the mount, in any case, the rest of the path is handed on |
| RouteFacts.BesideMount | apps/ferrofin-server/src/base_url.rs:50-54 | a path that only begins like the mount is not found |
| RouteFacts.OutsideMount | apps/ferrofin-server/src/base_url.rs:33-48 | the mount itself and everything outside it is sent to the health check or the web client under it |
| RouteFacts.MountedIff | apps/ferrofin-server/src/base_url.rs:71-80 | a Location is mounted if and only if it starts with one slash, is plain text and the base can be sent |
| RouteFacts.UnsendableBase | apps/ferrofin-server/src/base_url.rs:33-48 | a base that is no header value answers every redirect with a server error |
| Redirects.RedirectReachesRouter | apps/ferrofin-server/src/base_url.rs:33-48 | for every client, following a redirect of the middleware reaches the router on the next hop if and only if the base does not read as a network path and is sent as spelled, without dot segments, or is cut by a delimiter into a probe path |
| Redirects.NetworkBaseLeaves | apps/ferrofin-server/src/base_url.rs:33-48 | a base that reads as a network path sends every redirect to another host |
| Redirects.RedirectLoops | apps/ferrofin-server/src/base_url.rs:33-48 | otherwise the client is redirected again after any number of hops |
| Redirects.MountStripsBack | apps/ferrofin-server/src/base_url.rs:56-80 | a mounted Location asks the router for what it asks for without the mount, query included, if and only if the base is entered as spelled and the Location does not climb out, is not the root and is no probe behind the base, or it is a probe reached without the mount |
| Redirects.PlainStripsBack | apps/ferrofin-server/src/base_url.rs:56-80 | for an ordinary base and a Location without dots: if and only if its path is not the root and no probe behind the base |
| RedirectClients.RfcLawful | apps/ferrofin-server/src/base_url.rs:33-48 | a client after sections 2 to 5 of RFC 3986 is one of those the results are about |
| RedirectClients.BrowserLawful | apps/ferrofin-server/src/base_url.rs:33-48 | so is one after the WHATWG URL Standard, with its escapes, backslashes and encoded dots |
| RedirectClients.NetworkBase | apps/ferrofin-server/src/base_url.rs:33-48 | the base "//evil" is left alone by normalisation and sends every client to another host |
| RedirectClients.DottedBase | apps/ferrofin-server/src/base_url.rs:33-48 | the base "/a/../b" redirects for ever |
| RedirectClients.SpacedBase | apps/ferrofin-server/src/base_url.rs:33-48 | the base "/my media" redirects for ever |
| RedirectClients.DelimitedBase | apps/ferrofin-server/src/base_url.rs:33-48 | the base "/a?b" redirects for ever |
| RedirectClients.FragmentBase | apps/ferrofin-server/src/base_url.rs:33-48 | the base "/a#b" redirects for ever |
| RedirectClients.BothTripped | apps/ferrofin-server/src/base_url.rs:33-48 | both concrete clients go round for ever on all three bases |
| RedirectClients.QueriedRoot | apps/ferrofin-server/src/base_url.rs:70-80 | behind "/jelly" the Location "/?a=b" does not strip back |
| AdoptionReport.Load | gates/adoption/adoption_report.py:149-177 | the fold gives each fixture, in order of appearance, the row its own events describe, the last header and the number of unusable lines |
| AdoptionReport.HeaderIff | gates/adoption/adoption_report.py:162-164 | which lines are headers |
| AdoptionReport.CheckIff | gates/adoption/adoption_report.py:136-146 | which lines are checks, of which fixture and with which verdict |
| AdoptionReport.UpdateIff | gates/adoption/adoption_report.py:136-146 | which lines are rows or begin events, and the columns they bring |
| AdoptionReport.GivenIff | gates/adoption/adoption_report.py:173-174 | which verdict such a line brings |
| AdoptionReport.AttachIff | gates/adoption/adoption_report.py:136-146 | which lines are attachments |
| AdoptionReport.RowStep | gates/adoption/adoption_report.py:169-176 | one event moves a row's latest values, checks and attachments |
| AdoptionReport.InterleavingIrrelevant | gates/adoption/adoption_report.py:149-177 | logs with the same events per fixture give the same rows |
| AdoptionReport.BadLineOnlyCounted | gates/adoption/adoption_report.py:155-168 | an unusable line anywhere is counted and changes nothing else |
| AdoptionReport.OverallExact | gates/adoption/adoption_report.py:189-195 | the run fails or passes exactly by what each mentioned fixture's own events conclude |
| AdoptionReport.UnfinishedFails | gates/adoption/adoption_report.py:96-98 | where begin events carry no verdict, as the runner writes them, a mentioned fixture without a row is shown unfinished and fails the run |
| AdoptionReport.UnfinishedIff | gates/adoption/adoption_report.py:171-186 | a fixture without a row is shown unfinished if and only if its last begin event with a verdict gave null or INCOMPLETE, or there is none |
| AdoptionReport.RowlessFails | gates/adoption/adoption_report.py:171-195 | it fails the run unless that begin event relieves it, and then the run is up to the other fixtures |
| AdoptionReport.BeginPasses | gates/adoption/adoption_report.py:136-146 | a log of one begin event with PASS passes the run without any row |
| AdoptionReport.FailureSticks | gates/adoption/adoption_report.py:180-186 | after a failed check no continuation makes the row a pass, and the run passes only if a later verdict is a skip or unlisted |
| AdoptionReport.SkipHidesFailure | gates/adoption/adoption_report.py:180-195 | after a skipping row the run passes if and only if the other fixtures do, failed checks of this one notwithstanding |
| AdoptionReport.CountsExact | gates/adoption/adoption_report.py:329-334 | the four counts add up to the fixtures if and only if no verdict left standing is unlisted |
| AdoptionReport.CountIsCard | gates/adoption/adoption_report.py:334 | a count is the number of rows with the verdict |
| AdoptionReport.UncountedVerdict | gates/adoption/adoption_report.py:136-146 | a begin event can leave a verdict no count holds: one fixture, and counts that sum to nothing |
| ReadmeBlock.SpliceAgain | gates/publish.py:1236-1243 | a second splice keeps the text around the block and whatever followed its first end marker |
| ReadmeBlock.SpliceShape | gates/publish.py:1237-1243 | exactly when a splice is refused, and that it keeps the text before the begin mark and behind the end mark and its line feed |
| ReadmeBlock.IdempotentIff | gates/publish.py:1236-1243 | splicing twice is splicing once if and only if the block has no end marker before its own |
| ReadmeBlock.LastBlockWins | gates/publish.py:1236-1243 | of two blocks without inner end markers only the last is left |
| ReadmeBlock.ReadmeMarked | gates/publish.py:50-51 | the README's two marks have the shape the results need |

## Left out

- Docker, HTTP, SQLite connections, subprocesses, files and command lines; every function receives the data it works on.
- SHA-256 and JSON encoding: a digest stands for what it digests.
- Rounding: latencies, medians, slopes and sample times are exact numbers.
- GUID spellings in the watch-history model: ids are compared in one canonical spelling, and the columns the schema declares NOT NULL (crates/ferrofin-db/migrations/0001_initial.sql:619-638) are never null.
- The `items` part of the watch-history snapshot and `compare_api`.
- Other boot repairs that may run between migration 0042 and the harmonize repair, the database copy it takes first, and its row count.
- Unicode white space around a date: only ASCII white space is stripped.
- In `screens.js`: the latency metrics, response bodies and field types, the query stabilisation and the pseudo-random picks; a request arrives as its stable parts, and a screen's requests as a list.
- In `load_shape`: the status, count and total sets, lines without a key, and the aggregate image row beyond its not being counted; in `shape_evidence`: the coverage figures.
- ShapeEvidence.CompletePassAccepted: slot counts and metadata are integers; a missing or differently typed summary field is one that differs.
- In `resource_windows`: unreadable sample files, and phases without a window.
- In `endpoint_verdicts`: the medians of p95 and p99 shown beside the verdict; `measure`, `summarise`, `ramp_verdicts`, `scan_verdicts` and `verdicts`, which apply the same rule.
- `fit`, which selects the samples of a window before `slope`.
- The 400 answers of the base-URL middleware for paths that do not parse as a URI; request paths are ASCII, one character per byte. A client sends a query as it is spelled.
- Device rows of re-authenticated logins are trimmed as the code does; no result is about them.
- GUID parsing, date parsing, the clean-value derivation and key printing in the table digests are given functions; of GUID parsing only that it neither rewrites nor writes a slash is used.
- TableRekey.CleanComposes: a corollary; the exact statement is `ComposesIff`.
- TableRekey.RekeyInvisible: wants no path of a moved item's rows to lie in the new folder already, and no other row to be filed under the new id.
- The page, Markdown and SVG rendering of `report.py`, `gate.py`, `publish.py` and `adoption_report.py`.
- `expand` and `korean_resets` of the collation generator, and the binary emission of the trie.
- `session.py`, `result.py`, `baseline.py`, `oracle.py`, `ramp.py` and the fixture builders.

# Carnet de dressage — a verified model of the local store and its pages

Carnet de dressage is a browser application for keeping a dog's training
log. It has three kinds of record sheet:

- `recherche`: search exercises with hidden charges;
- `obeissance`: weekly obedience sessions;
- `divers`: weekly weight, grooming, food and behaviour notes.

It also keeps the settings (the dog's name, the lists of substances and of
setters, and the onboarding flag) and a draw tool. The draw tool shuffles
the participants and keeps per-position statistics.

Everything lives in one IndexedDB database, `src/db.js`. The pages call it
directly.

This project models in Dafny:

- that database;
- the date helpers of `src/utils.js`;
- the logic of the pages that read and write it:
  - the draw tool;
  - the settings page;
  - the onboarding wizard;
  - the three record forms;
  - the list of records.

## Modules

**Database layer**

- `Store` models the database as a value:
  - the three record stores, with IndexedDB's key generator, `add`/`put`/`get`/`delete`/`clear`/`getAll`;
  - the two singletons kept in the `settings` object store, under keys `1` and `'tirage'`;
  - import with its three document shapes, export, and reset.
- `Db.Database` is a class whose methods change the database in place. Each method is specified by the `Store` function it performs.
- `DrawStats` holds the statistics of `recordTirageResult`: entries are grown, counted and kept balanced.

**Shared helpers**

- `Json` models the JavaScript values and operators the code relies on:
  - truthiness, `||`, object spread;
  - `String(x)` for the JSON values the code converts.
- `Text` holds the string built-ins: `trim`, `toLowerCase`, `split`, `join`, `parseInt`, number formatting.
- `Seqs` holds `filter`, index-wise edits and sums.
- `Dates` holds a proleptic Gregorian calendar on day numbers, with `getWeekNumber`, `getWeekRange`, `formatDateISO` and `formatDateCourt`.
- `Forms` holds the behaviour the record forms share:
  - line-limited textareas;
  - legacy-field fallback on load;
  - week info;
  - submit and delete through the store.

**Pages**

- `TirageSort` models the draw page:
  - the roster, with no duplicates ignoring case;
  - the Fisher–Yates loop as a method;
  - percentages;
  - the page as a class over the database.
- `Reglages`, `Welcome` and `SettingsLists` model the settings page and the onboarding wizard.
- `RechercheForm`, `ObeissanceForm`, `DiversForm` and `Liste` model the forms and the list page.

A JavaScript `TypeError`, or an IndexedDB request error, is an explicit `Err`/`None` value of the model.

**Where the model follows the code rather than the stated design:**

- `updateFiche` is `put({...data, id})`. It does not fail on a missing id: it inserts the record. It does not preserve `created_at` either; that field survives only if the data carries it. See `Store.UpdateFicheReplaces`.
- `getAll` lists the records in ascending key order.
- The draw data is stored under the key `'tirage'`.
- `importAllData` never refuses a document that is not `null`. A document with none of the known keys is read as the flat shape, with empty collections. Only the settings page's own check rejects it before any write. See `Reglages.CheckImport` and `Reglages.FlatWithoutRechercheRefused`.
- A failing request in one store's transaction aborts only that store. The stores replaced before it stay replaced, the later ones are not touched, and the settings and draw data are not written.
- Deleting a missing key succeeds and changes nothing.

## Model

| member | source | states |
|---|---|---|
| Store.AddRecord | src/db.js:37-46 | `add` stores the value under its numeric `id` or, without one, under the generator's key with that key written as `id`, and advances the generator past the key. It fails exactly when the value is not an object, or its `id` is not a number or is already taken. The new key was free, and no other record changes. |
| Store.PutRecord | src/db.js:70-79 | `put` stores the value as it is under its numeric `id`, or under the generator's key with that key written as `id`, replacing what was there, and advances the generator past the key. It fails only on a non-object or a non-numeric `id`. No other record changes. |
| Store.Lookup | src/db.js:48-57 | `get` finds a record exactly when its key is in the store. |
| Store.DeleteRecord | src/db.js:81-90 | After `delete` the key is absent, every other key reads as before, and the generator is kept. |
| Store.Clear | src/db.js:167-175 | `clear` empties the store and keeps the key generator. |
| Store.AddFicheThenGet | src/db.js:37-57 | A record added without `id` gets the generator's key, which no record held. Reading it back gives the data plus `created_at` and `id`; all other records are unchanged. |
| Store.AddFicheFails | src/db.js:37-46 | Adding fails exactly when the data carries an `id` that is taken or not a number. |
| Store.UpdateFiche | src/db.js:70-79 | Updating keeps the store well-formed. |
| Store.UpdateFicheReplaces | src/db.js:70-79 | `updateFiche` leaves exactly `{...data, id}` under `id`: a missing key is inserted, and no other record changes. |
| Store.DeleteFicheIdempotent | src/db.js:81-90 | Deleting twice is deleting once. The key then reads as missing, and deleting a missing key changes nothing. |
| Store.AllRecords | src/db.js:59-68 | `getAll` lists every record, as stored, by ascending key. |
| Store.AllRecordsComplete | src/db.js:59-68 | Every stored record appears in the listing. |
| Store.EmptySnapshotValid | src/db.js:7-35 | A freshly created database is well-formed. |
| Store.GetSettings | src/db.js:93-112 | Reading the settings gives the stored object, which always has `id` 1, or the default object when nothing was saved. |
| Store.SaveSettings | src/db.js:120-129 | Saving settings touches neither the record stores nor the draw data. |
| Store.GetTirage | src/db.js:227-243 | Reading the draw data gives the stored object, with `id` `'tirage'`, or the default object. |
| Store.SaveTirage | src/db.js:246-255 | Saving draw data touches neither the record stores nor the settings. |
| Store.SaveSettingsThenGet | src/db.js:115-129 | Settings read back as the saved object with `id` 1. Onboarding is done exactly when the saved flag is `true`, and not done before any save. |
| Store.SaveTirageThenGet | src/db.js:227-255 | Draw data reads back as saved, and the settings singleton is untouched. |
| Store.CollectionsOf | src/db.js:164-185 | Each collection of the import document is taken as `x || []`. |
| Store.DetectShape | src/db.js:155-185 | Shape detection fails exactly on `null`, and a legacy document carries no draw data. |
| Store.Refill | src/db.js:188-211 | Adding the imported items one by one keeps the store well-formed. |
| Store.ReplaceStore | src/db.js:188-211 | A store's import transaction changes only that store. |
| Store.ImportStores | src/db.js:188-211 | The store transactions leave the settings and the draw data alone. |
| Store.ImportStoresStops | src/db.js:188-211 | Once a store transaction has failed, no later one runs. |
| Store.ImportAll | src/db.js:155-222 | An import leaves the database well-formed, whatever its outcome. |
| Store.ApplyPlan | src/db.js:188-221 | Applying the import plan keeps the database well-formed. |
| Store.ExportAll | src/db.js:132-152 | An export document is read back as the versioned shape. |
| Store.RefillStoresIds | src/db.js:188-211 | A successful refill stores every item that has a numeric `id` under that key. |
| Store.RefillIdsDistinct | src/db.js:188-211 | A successful refill saw no key twice: a duplicate `id` fails the whole store. |
| Store.RefillWithIds | src/db.js:188-211 | Objects with distinct numeric ids refill an empty store with exactly those objects, each under its own key. |
| Store.RefillAllRecords | src/db.js:132-211 | Refilling a cleared store with another store's listing reproduces that store's records. |
| Store.ImportStoresRestore | src/db.js:188-211 | A plan made of a database's listings succeeds and restores each of its stores. |
| Store.ExportImportRoundTrip | src/db.js:132-222 | Importing an export restores the exported database, whatever database it is imported into: every record store, the settings and the draw data. |
| Store.SingletonsRestored | src/db.js:213-221 | Writing a database's own singletons back gives the same singletons. |
| Store.AllStoresRestored | src/db.js:188-211 | Restoring the three stores in turn restores every store. |
| Store.ApplyPlanSingletons | src/db.js:213-221 | When every store succeeds, both singletons of the plan are saved. |
| Store.ExportPlan | src/db.js:132-185 | The plan read from an export is the database's listings and singletons. |
| Store.ExportListing | src/db.js:132-152 | The export holds each store's full listing, the settings record and the draw record. |
| Store.ImportSingletons | src/db.js:155-222 | A legacy import never touches the draw data. A failed import writes neither singleton. |
| Store.ImportedContents | src/db.js:155-211 | After a successful import, each store holds exactly its imported items. A missing collection leaves the store empty. |
| Store.ImportStoresTouchAll | src/db.js:188-211 | When all three transactions succeed, each store holds exactly the records its own items refill an emptied store with. |
| Store.ImportStoresPassPrefix | src/db.js:188-211 | A loop that succeeded succeeded at every earlier transaction. |
| Store.ClearStore | src/db.js:285-301 | Clearing one object store keeps the database well-formed. |
| Store.ResetPrefix | src/db.js:285-301 | The reset's transactions keep the database well-formed. |
| Store.ResetEffect | src/db.js:285-301 | After a reset: every record store is empty and keeps its generator; settings and draw data read as defaults; onboarding is not done. |
| Db.Database.constructor | src/db.js:7-35 | Opening a new database gives the four object stores, empty. |
| Db.Database.AddFiche | src/db.js:37-46 | `addFiche` resolves with the key `Store.AddFiche` assigns, or rejects with its error and changes nothing. |
| Db.Database.GetFiche | src/db.js:48-57 | A record that was found carries its own key as `id`. |
| Db.Database.GetAllFiches | src/db.js:59-68 | The listing gives one object per key, in key order, each with that key as its `id`. |
| Db.Database.UpdateFiche | src/db.js:70-79 | `updateFiche` resolves with `id` and changes the database as `Store.UpdateFiche` does. |
| Db.Database.DeleteFiche | src/db.js:81-90 | `deleteFiche` changes the database as `Store.DeleteFiche` does. |
| Db.Database.GetSettings | src/db.js:93-112 | The settings read always have `id` 1. |
| Db.Database.SaveSettings | src/db.js:120-129 | `saveSettings` is `Store.SaveSettings` on the current database. |
| Db.Database.GetTirageData | src/db.js:227-243 | The draw data read always has `id` `'tirage'`. |
| Db.Database.SaveTirageData | src/db.js:246-255 | `saveTirageData` is `Store.SaveTirage` on the current database. |
| Db.Database.ExportAllData | src/db.js:132-152 | The export is `Store.ExportAll` of the current database, and is readable by the import. |
| Db.Database.ImportAllData | src/db.js:155-222 | The loop of store transactions and singleton writes has exactly the effect and outcome of `Store.ImportAll`. |
| Db.Database.RecordTirageResult | src/db.js:258-280 | The loop over the drawn order has the effect of `DrawStats.RecordTirage` and returns its table. |
| Db.Database.ResetDatabase | src/db.js:285-301 | The reset clears the four object stores in turn and resolves with `true`. |
| Db.RefillStore | src/db.js:201-205 | The `forEach` of `add`s on an emptied store gives exactly the refill of the items, stopping at the first failing add. |
| Db.ImportStoresAdvance | src/db.js:194-210 | After earlier transactions succeeded, a successful one lets the loop go on from the replaced store. A failing one is the outcome of the whole loop. |
| Db.RefillFailure | src/db.js:188-211 | A failing add among the first items fails the whole refill with its error. |
| Db.CountDraw | src/db.js:262-276 | One iteration of `recordTirageResult`'s loop computes `DrawStats.Step`, throwing on a name the table only inherits. |
| Db.RecordPrefixStops | src/db.js:262-276 | A failing iteration ends the recording with its error. |
| DrawStats.NumbersOfArray | src/db.js:262-276 | An array written from counts reads back as the same counts. |
| DrawStats.DecodeEncode | src/db.js:262-276 | A written statistics entry reads back as the counts written. |
| DrawStats.Grow | src/db.js:266-268 | Padding with zeros keeps the existing counts and their sum, and reaches the participant count. |
| DrawStats.Entry | src/db.js:262-267 | A name the table only inherits gives no entry (the TypeError). A name with no entry, own or inherited, starts from zeros, one per participant. |
| DrawStats.Step | src/db.js:262-276 | One iteration adds or changes only the drawn name's entry. It fails only with a TypeError, and always does on a name the table only inherits from `Object.prototype`. |
| DrawStats.RecordDraw | src/db.js:261-274 | The `forEach` fails only with a TypeError. |
| DrawStats.StepWellFormed | src/db.js:262-276 | One iteration on a well-formed table, of a name the table does not merely inherit, succeeds and keeps it well-formed. |
| DrawStats.RecordDrawBalanced | src/db.js:262-276 | A draw on a well-formed table of names it does not merely inherit succeeds, keeps every entry's counts summing to its total, and removes no entry. |
| DrawStats.RecordPrefixOkIff | src/db.js:262-276 | On a well-formed table, the loop succeeds exactly when no drawn name is one the table only inherits, such as `constructor`. |
| DrawStats.FirstInherited | src/db.js:262-270 | The first drawn name the table only inherits throws: `stats[name]` is truthy, so no entry is created, and reading its `positions` fails. |
| DrawStats.RecordDrawUntouched | src/db.js:262-276 | Names not drawn keep their entries. |
| DrawStats.Expected | src/db.js:262-276 | The expected entry has one count per participant. |
| DrawStats.ExpectedUndrawn | src/db.js:262-276 | Before its first draw, a name's entry is its starting entry, grown. |
| DrawStats.StepDrawn | src/db.js:262-276 | The iteration that draws a name writes its grown entry, with one more at the position. |
| DrawStats.RecordDrawCounts | src/db.js:262-276 | After any prefix of the loop, a drawn name's entry is the expected one. |
| DrawStats.ExpectedClosed | src/db.js:262-276 | After `i` iterations, each position counts one more exactly when it is among the first `i` and drew the name. The total grows by the number of those draws. |
| DrawStats.ExpectedFull | src/db.js:262-276 | After the draw, each position counts one more exactly where the name was drawn, and the total grows by the number of draws. |
| DrawStats.RecordDrawEffect | src/db.js:258-280 | A draw on a well-formed table of names it does not merely inherit succeeds and stays balanced. Undrawn names keep their entry. A drawn name's entry is its old one, or zeros, grown and counted. |
| DrawStats.DrawnEntry | src/db.js:262-276 | A drawn name's final entry is the expected one. |
| DrawStats.RecordTirage | src/db.js:258-280 | The new table is saved with the rest of the draw data, and the database stays well-formed. A failure is a TypeError. |
| DrawStats.RecordTirageSaves | src/db.js:258-280 | Recording a draw on well-formed stored statistics succeeds exactly when no drawn name is one the table only inherits. Then the saved draw data keeps the participants and holds the returned table; records and settings are untouched. |
| TirageSort.AddName | src/views/TirageSort.jsx:56-70 | A blank input is ignored, a name already listed ignoring case is refused, and otherwise the trimmed name is appended. |
| TirageSort.AddKeepsDistinct | src/views/TirageSort.jsx:56-70 | Adding keeps the roster free of case-insensitive duplicates. |
| TirageSort.RemoveName | src/views/TirageSort.jsx:76-82 | Removing never lengthens the roster, and leaves no copy of the name. |
| TirageSort.RemoveNameEffect | src/views/TirageSort.jsx:76-82 | Removing drops every copy of the name and keeps each other name as often as before. |
| TirageSort.RemoveKeepsDistinct | src/views/TirageSort.jsx:76-82 | Removing keeps the roster free of duplicates. |
| TirageSort.RosterChanged | src/views/TirageSort.jsx:34-54 | Saving the roster and resetting the statistics keeps the database well-formed. |
| TirageSort.RosterChangedEffect | src/views/TirageSort.jsx:34-54 | After a roster change the draw data holds the new roster and an empty table. Nothing else changes. |
| TirageSort.Shuffle | src/views/TirageSort.jsx:97-103 | The Fisher–Yates loop returns a rearrangement of the roster, whatever index each step chooses. |
| TirageSort.FloorDiv | src/views/TirageSort.jsx:134-138 | The quotient is rounded down, as `Math.floor` does, for either sign of the divisor. |
| TirageSort.RoundPercentNearest | src/views/TirageSort.jsx:134-138 | The rounded percentage is within one half of the exact one. |
| TirageSort.RoundPercentBounds | src/views/TirageSort.jsx:134-138 | A share of a positive total rounds to between 0 and 100, and gives 0 and 100 at the ends. |
| TirageSort.PositionPercent | src/views/TirageSort.jsx:134-138 | A name the table only inherits reads as an error (`s.positions` is undefined). A name with no entry at all reads as 0. |
| TirageSort.PositionPercentBounds | src/views/TirageSort.jsx:134-138 | On a balanced table of non-negative counts, every position of a drawn name reads as a percentage between 0 and 100. |
| TirageSort.DrawTool.constructor | src/views/TirageSort.jsx:18-32 | The page loads the stored roster and table, as `\|\| []` and `\|\| {}`. |
| TirageSort.DrawTool.PersistRoster | src/views/TirageSort.jsx:34-54 | Saving the roster and resetting the statistics performs `RosterChanged` and empties the page's table. |
| TirageSort.DrawTool.AddParticipant | src/views/TirageSort.jsx:56-70 | An accepted name updates the roster, clears the results and persists the change. A refused or blank one changes nothing. |
| TirageSort.DrawTool.RemoveParticipant | src/views/TirageSort.jsx:76-82 | Removing updates the roster, clears the results and persists the change. |
| TirageSort.DrawTool.ClearAll | src/views/TirageSort.jsx:84-90 | Clearing empties the roster, the results and the statistics, and persists the change. The empty roster keeps the no-duplicates property of `addParticipant`. |
| TirageSort.DrawTool.DrawOrder | src/views/TirageSort.jsx:92-108 | Below two participants nothing changes. Otherwise the result is a permutation of the roster, and it is exactly what the statistics record. If recording fails, the model returns `Failed(e)`; the shuffled order is shown, no error is reported, and the statistics and database are unchanged. |
| Reglages.FormRecord | src/views/Reglages.jsx:46-56 | The saved settings have exactly the name, the two lists and the onboarding flag. |
| Reglages.LoadSettings | src/views/Reglages.jsx:24-34 | The name falls back on `''` and each list on `[]` when the stored value is missing or falsy. The onboarding flag is the stored one whenever it is defined, even when falsy, and `true` otherwise. |
| Reglages.LoadDefaults | src/views/Reglages.jsx:24-34 | A fresh database shows an empty form with onboarding not done. A stored object without the flag reads as done. |
| Reglages.SaveLoadRoundTrip | src/views/Reglages.jsx:24-56 | Saving the form and loading it again gives the same form. |
| Reglages.AddEntry | src/views/Reglages.jsx:59-64 | Adding appends a blank entry to that list only. |
| Reglages.UpdateEntry | src/views/Reglages.jsx:66-71 | Editing changes entry `i` of that list only. |
| Reglages.RemoveEntry | src/views/Reglages.jsx:73-78 | Removing drops entry `i` of that list only, shifting the later ones down. |
| Reglages.AddThenRemove | src/views/Reglages.jsx:59-78 | Removing the entry just added restores the form. |
| Reglages.SaveList | src/views/Reglages.jsx:80-93 | The form shows, and saves, that list cleaned of blank entries. |
| Reglages.SaveListStored | src/views/Reglages.jsx:80-130 | After saving one list, the stored settings hold the cleaned list, the other list, the name and the flag. |
| Reglages.CheckImport | src/views/Reglages.jsx:159-187 | The page's check fails on `null` exactly, and refuses exactly the documents with none of the three keys. |
| Reglages.PreviewMatchesImport | src/views/Reglages.jsx:168-187 | The preview counts the collections the import will write, and names the dog of the settings it will save. |
| Reglages.Total | src/views/Reglages.jsx:186 | The total is a number exactly when all three sizes are. |
| Reglages.ExportPreview | src/views/Reglages.jsx:159-187 | An exported document passes the check, and its preview lists each store's records. |
| Reglages.PreviewTotal | src/views/Reglages.jsx:186 | The total counts the records of the three stores. |
| Reglages.ImportDatabase | src/views/Reglages.jsx:151-214 | The import runs exactly when the file passes the check and the user confirms. Otherwise nothing changes. |
| Reglages.FlatWithoutRechercheRefused | src/views/Reglages.jsx:163-165 | A flat document holding only `divers` is refused by the page, though the import itself would accept it. |
| Reglages.ResetRequest | src/views/Reglages.jsx:217-246 | The reset runs only after the confirmation and the typed word `SUPPRIMER`. Otherwise nothing changes. |
| SettingsLists.NonBlankEffect | src/views/Reglages.jsx:84 | Cleaning drops exactly the blank entries and keeps the others as often as before. |
| SettingsLists.NonBlankIdempotent | src/views/Reglages.jsx:84 | Cleaning twice is cleaning once. |
| SettingsLists.NonBlankConcat | src/views/Welcome.jsx:90-91 | Cleaning keeps the order: it commutes with concatenation. |
| Welcome.NextStep | src/views/Welcome.jsx:72-78 | Step 1 with a blank name stays put; every other step moves on. |
| Welcome.NextThenPrev | src/views/Welcome.jsx:72-82 | Going back undoes an accepted step. |
| Welcome.PrevStep | src/views/Welcome.jsx:80-82 | Going back lowers the step by one and keeps the name and both lists. Going forward again returns to where the wizard was, unless that lands on step 1 with a blank name. |
| Welcome.BlankNameStaysOnFirstStep | src/views/Welcome.jsx:72-78 | With a blank name, any number of presses stays on step 1. |
| Welcome.SetName | src/views/Welcome.jsx:25-28 | Typing the name changes only the name. |
| Welcome.AddEntry | src/views/Welcome.jsx:30-32 | Adding appends a blank entry to that list only. |
| Welcome.UpdateEntry | src/views/Welcome.jsx:34-39 | Editing changes entry `i` of that list only. |
| Welcome.RemoveEntry | src/views/Welcome.jsx:41-49 | A list of one entry is left alone. A longer list loses entry `i`. |
| Welcome.EditsKeepListsShown | src/views/Welcome.jsx:15-82 | Both lists start with one entry, and no edit ever empties them. |
| Welcome.FinishSettings | src/views/Welcome.jsx:85-112 | Finishing saves exactly the name, the two lists and the flag. |
| Welcome.DogName | src/views/Welcome.jsx:89 | A blank name typed gives `Mon chien`. Any other gives the trimmed name. |
| Welcome.DogNameNotBlank | src/views/Welcome.jsx:89 | The name saved is never blank. |
| Welcome.FinishSaves | src/views/Welcome.jsx:85-112 | After finishing, onboarding is done. The dog has a non-blank name: the trimmed one typed, or the default. Both lists are saved without their blank entries. |
| Welcome.SkipIsFinishFromStart | src/views/Welcome.jsx:115-129 | Skipping saves what finishing the untouched wizard would. |
| Welcome.ProcessImport | src/views/Welcome.jsx:136-161 | Restoring a backup keeps the database well-formed. |
| Welcome.ProcessImportEffect | src/views/Welcome.jsx:136-161 | A restored backup ends onboarding and keeps every other setting, record and draw datum of the import. |
| Forms.SetField | src/views/ObeissanceForm.jsx:97-100 | A field edit sets that field and no other. |
| Forms.LimitedChange | src/views/DiversForm.jsx:99-105 | A textarea edit is taken whole or not at all. |
| Forms.LimitedChangeKeepsFit | src/views/DiversForm.jsx:99-105 | A textarea within its line limit stays within it. An edit is taken exactly when it fits, and other fields never change. |
| Forms.EnterMatchesChange | src/views/RechercheForm.jsx:256-268 | Enter is blocked exactly when the line it would add would be refused by the edit guard. |
| Forms.LimitsKept | src/views/DiversForm.jsx:99-105 | A guarded edit keeps every textarea within its limit. |
| Forms.LoadFields | src/views/ObeissanceForm.jsx:44-55 | The loaded form has exactly the form's fields, each a truthy stored value or `''`. |
| Forms.LoadFieldsFallback | src/views/ObeissanceForm.jsx:44-55 | A present field loads as stored; a missing one loads as `''`, except the merged field, which falls back on its legacy name. |
| Forms.LoadFieldsOfSaved | src/views/ObeissanceForm.jsx:44-55 | A form of strings saved and loaded back is the same form. |
| Forms.UpdateWeekInfo | src/views/ObeissanceForm.jsx:75-84 | The week update changes only the week number and the two dates. |
| Forms.UpdateWeekInfoEffect | src/views/ObeissanceForm.jsx:75-84 | After the week update, the week number parses to the ISO week of the day. The start is its Monday and the end its Sunday. |
| Forms.WeekChange | src/views/ObeissanceForm.jsx:87-94 | Clearing the date picker changes nothing, and a change touches only the week fields. |
| Forms.WeekFieldsKept | src/views/ObeissanceForm.jsx:75-84 | On a form that has the week fields, the week update adds no field. |
| Forms.WeekDisplayPlaceholder | src/views/ObeissanceForm.jsx:141-148 | The placeholder shows exactly when the week number or a date is missing. |
| Forms.WeekDisplayAfterUpdate | src/views/ObeissanceForm.jsx:141-148 | After the week update the heading reads the week number, then Monday and Sunday as `DD/MM/YYYY`. |
| Forms.WeekDisplay | src/views/ObeissanceForm.jsx:141-148 | The placeholder shows while a week field is missing. Otherwise the heading fails exactly when a date is not a string, the TypeError of `formatDateCourt`. |
| Forms.LoadForEdit | src/views/ObeissanceForm.jsx:39-62 | A record found for editing is the one whose key the id parses to. |
| Forms.Submit | src/views/ObeissanceForm.jsx:103-120 | Saving changes only that page's store. |
| Forms.SubmitStores | src/views/ObeissanceForm.jsx:103-120 | Saving fails exactly when editing under an id that does not parse. Otherwise it updates that record, or adds a new one. |
| Forms.SubmitThenLoad | src/views/ObeissanceForm.jsx:39-120 | The record saved loads back under the key the page navigates to, with the form's fields. |
| Forms.Delete | src/views/ObeissanceForm.jsx:123-138 | Deleting keeps the database well-formed. |
| Forms.DeleteNeedsIdAndConfirmation | src/views/ObeissanceForm.jsx:123-138 | Nothing is deleted without an id and a confirmation. With both, exactly that record goes. |
| ObeissanceForm.LoadForm | src/views/ObeissanceForm.jsx:44-55 | The loaded form has exactly the eight fields. |
| ObeissanceForm.Open | src/views/ObeissanceForm.jsx:39-69 | Without an id the page always opens. An opened page has exactly the eight fields, and is in edit mode exactly when the address has an id. |
| ObeissanceForm.OpenRecord | src/views/ObeissanceForm.jsx:39-62 | A page opened on an id has the eight fields and is in edit mode. |
| ObeissanceForm.NewPage | src/views/ObeissanceForm.jsx:63-69 | A new page has the eight fields and is not in edit mode. |
| ObeissanceForm.OpenMissing | src/views/ObeissanceForm.jsx:39-62 | The page leaves for the list exactly when the id parses to a key with no record. |
| ObeissanceForm.SubmitPage | src/views/ObeissanceForm.jsx:103-120 | A save fails exactly when it is an update whose id does not parse. A successful save keeps the database well-formed, changes only the obedience store, and stores a record holding every field of the form. |
| ObeissanceForm.DeletePage | src/views/ObeissanceForm.jsx:123-138 | Without an id or without confirmation nothing changes. The delete fails exactly when the id does not parse. Otherwise the record is gone, and only the obedience store changes. |
| ObeissanceForm.SaveThenReopen | src/views/ObeissanceForm.jsx:39-120 | Saving a form and reopening the saved record shows the same form, in edit mode. |
| ObeissanceForm.NewPageShowsWeek | src/views/ObeissanceForm.jsx:63-69 | A new page shows the current week in its heading and is not in edit mode. |
| DiversForm.LoadForm | src/views/DiversForm.jsx:32-71 | The loaded form has exactly the ten fields. |
| DiversForm.Open | src/views/DiversForm.jsx:32-68 | Without an id the page always opens. An opened page has exactly the ten fields, and is in edit mode exactly when the address has an id. |
| DiversForm.OpenRecord | src/views/DiversForm.jsx:38-61 | A page opened on an id has the ten fields and is in edit mode. |
| DiversForm.NewPage | src/views/DiversForm.jsx:62-67 | A new page has the ten fields and is not in edit mode. |
| DiversForm.EditsKeepLimits | src/views/DiversForm.jsx:93-105 | The new form fits every textarea limit. Textarea edits, the weight field and week changes keep every limit. |
| DiversForm.SubmitPage | src/views/DiversForm.jsx:107-124 | A save fails exactly when it is an update whose id does not parse. A successful save keeps the database well-formed, changes only the miscellaneous store, and stores a record holding every field of the form. |
| DiversForm.DeletePage | src/views/DiversForm.jsx:126-141 | Without an id or without confirmation nothing changes. The delete fails exactly when the id does not parse. Otherwise the record is gone, and only the miscellaneous store changes. |
| DiversForm.SaveThenReopen | src/views/DiversForm.jsx:32-124 | Saving a form and reopening the saved record shows the same form, in edit mode. |
| DiversForm.NewPageShowsWeek | src/views/DiversForm.jsx:32-82 | A new page shows the current week in its heading and is not in edit mode. |
| RechercheForm.LoadCharges | src/views/RechercheForm.jsx:44-46 | Ten rows are loaded, each truthy. |
| RechercheForm.LoadChargesSlots | src/views/RechercheForm.jsx:44-46 | Stored rows fill the slots in order. A missing or falsy row, and every slot past them, is an empty row. |
| RechercheForm.LoadForm | src/views/RechercheForm.jsx:41-59 | The loaded form has the text fields, the kinds of search and ten rows. |
| RechercheForm.InitialForm | src/views/RechercheForm.jsx:16-31 | The new form has the same shape. |
| RechercheForm.Open | src/views/RechercheForm.jsx:34-62 | The opened page always shows a well-shaped form. |
| RechercheForm.ToggleType | src/views/RechercheForm.jsx:69-75 | A toggle succeeds exactly on an array of kinds, or on a string being checked, whose characters spread into the array. A check appends the kind; an uncheck leaves no copy of it. |
| RechercheForm.ToggleTypeEffect | src/views/RechercheForm.jsx:69-75 | Checking a kind appends it. Unchecking removes every copy and keeps each other kind, in order. Unchecking after checking is unchecking alone, and unchecking is idempotent. |
| RechercheForm.UncheckEffect | src/views/RechercheForm.jsx:69-75 | Unchecking leaves no copy of the kind and keeps every other kind as often as before. Unchecking twice is unchecking once. |
| RechercheForm.CheckThenUncheck | src/views/RechercheForm.jsx:69-75 | Unchecking after checking is unchecking alone. |
| RechercheForm.HandleChange | src/views/RechercheForm.jsx:64-79 | Every change other than a kind toggle succeeds. A change touches only its own field, and a kind toggle only the list of kinds. |
| RechercheForm.TimeSlotSingleChoice | src/views/RechercheForm.jsx:67-68 | The time slot holds the value checked last, and `''` once unchecked. |
| RechercheForm.ChargeChange | src/views/RechercheForm.jsx:81-87 | A row edit keeps the form's shape. |
| RechercheForm.ChargeChangeEffect | src/views/RechercheForm.jsx:81-87 | Only the edited field of the edited row changes. |
| RechercheForm.HeightSingleChoice | src/views/RechercheForm.jsx:309-326 | A click toggles that height and leaves every other height unchecked. A second click restores it. |
| RechercheForm.HeightClick | src/views/RechercheForm.jsx:309-326 | A click changes only the height of the clicked row: no other row and no other field. |
| RechercheForm.SubmitData | src/views/RechercheForm.jsx:92-94 | Only the rows change on submit. |
| RechercheForm.SubmitKeepsFilledRows | src/views/RechercheForm.jsx:92-94 | Submission keeps exactly the rows with a substance, as often as they occur, and nothing else. |
| RechercheForm.ReloadCharges | src/views/RechercheForm.jsx:44-46 | Reloading the kept rows shows them first, in order, then empty rows up to ten. |
| RechercheForm.SaveThenReopen | src/views/RechercheForm.jsx:41-108 | Saving and reopening shows the same form, with its filled rows first and empty rows after. |
| RechercheForm.LoadFormOfSaved | src/views/RechercheForm.jsx:41-59 | A record saved from a form loads as that form, with its filled rows first and empty rows up to ten after. |
| RechercheForm.SubmitPage | src/views/RechercheForm.jsx:89-108 | A save fails exactly when the address has an id that does not parse. A successful save keeps the database well-formed, changes only the search store, and stores exactly the filled rows. |
| RechercheForm.DeletePage | src/views/RechercheForm.jsx:110-121 | Without an id or without confirmation nothing changes. The delete fails exactly when the id does not parse. Otherwise the record is gone, and only the search store changes. |
| RechercheForm.EditsKeepLimits | src/views/RechercheForm.jsx:256-268 | The description and the assessment stay within 3 and 9 lines through every edit. |
| Liste.Tag | src/views/Liste.jsx:106-110 | Every entry is tagged with its store's name. |
| Liste.BelowIrreflexive | src/views/Liste.jsx:112-116 | No key sorts before itself. |
| Liste.BelowTransitive | src/views/Liste.jsx:112-116 | The order on keys is transitive. |
| Liste.BelowTotal | src/views/Liste.jsx:112-116 | Any two different keys are ordered one way or the other. |
| Liste.SortKey | src/views/Liste.jsx:112-116 | A record is sorted by its date when it has one and otherwise by its start date. A record with neither sorts under the empty key. |
| Liste.SortDesc | src/views/Liste.jsx:112-116 | The sort is a permutation of its input, in descending order of key. |
| Liste.SortDescStable | src/views/Liste.jsx:112-116 | Records with equal keys keep their relative order. |
| Liste.AllSorted | src/views/Liste.jsx:105-117 | The listing holds as many entries as the three stores together, in descending order of key. |
| Liste.AllSortedListing | src/views/Liste.jsx:60-65 | The listing holds exactly the tagged records of the three stores, as many as `counts.all`. It runs from the latest date to the earliest, keeps the merged order between equal dates, and ends with the undated records. |
| Liste.StoredRecordListed | src/views/Liste.jsx:105-117 | Every stored record appears in the listing, tagged with its store. |
| Liste.FicheTitle | src/views/Liste.jsx:68-83 | A title fails, with the TypeError of `formatDateCourt`, exactly when a search card has a date that is not a string. |
| Liste.DefaultTitleIff | src/views/Liste.jsx:68-83 | A card shows its type's default title exactly when its date, or its week number, is missing. Any other type shows `Fiche`. |
| Liste.SearchTitle | src/views/Liste.jsx:68-83 | A search on `YYYY-MM-DD` is titled `Recherche du DD/MM/YYYY`. |
| Liste.FicheMeta | src/views/Liste.jsx:86-102 | Cards of other types have an empty summary. A search's summary fails exactly when its kinds cannot be joined. A weekly record's fails exactly when both dates are present and one is not a string. |
| Liste.MetaParts | src/views/Liste.jsx:86-102 | Every part of the summary line is a non-empty text. |
| Liste.MetaEmptyIff | src/views/Liste.jsx:86-102 | The summary line is empty exactly when there is nothing to show: no time slot, setter or kind for a search; not both dates for a weekly record. |
| Dates.CivilOf | src/utils.js:43-61 | The calendar date of a day number is valid and names that day. |
| Dates.CivilOfDayNumber | src/utils.js:43-61 | A date's day number reads back as the date. |
| Dates.DayNumberInjective | src/utils.js:43-61 | Two valid dates with the same day number are the same date. |
| Dates.WeekNumber | src/utils.js:11-17 | The week number is between 1 and 53. It is 1 exactly when the week's Thursday falls in the first seven days of its year. |
| Dates.SameWeekSameNumber | src/utils.js:11-17 | Days of one Monday-to-Sunday week share a number. |
| Dates.NextWeekNumber | src/utils.js:11-17 | The next week's number is one more, or 1 when its Thursday starts a new year. |
| Dates.YearChangeWithinWeek | src/utils.js:11-17 | When a Thursday and the next one fall in different years, the later one is in the next year, among its first seven days. |
| Dates.FourthOfJanuaryInWeekOne | src/utils.js:11-17 | January 4 is always in week 1, as in ISO 8601. |
| Dates.WeekMondayBounds | src/utils.js:24-36 | The range's Monday is a Monday, on or before the day, at most six days earlier, and in the same week. |
| Dates.GetWeekRange | src/utils.js:24-36 | For a four-digit year, the range's ends read back as the week's Monday and the Sunday six days later. |
| Dates.WeekRangeEndsOnSunday | src/utils.js:24-36 | Six days after the range's Monday is a Sunday. |
| Dates.FormatDateISO | src/utils.js:43-49 | A date with a four-digit year formats to ten characters that read back as the same day. |
| Dates.ParseISODate | src/utils.js:43-44 | A string that reads as a day has the shape `YYYY-MM-DD`, all digits, and names the day whose year, month and day are those digits. |
| Dates.FormatParseDateISO | src/utils.js:43-49 | A well-formed date string is the formatting of the day it names. |
| Dates.FormatDateCourtReorders | src/utils.js:56-62 | The short format of `YYYY-MM-DD` is `DD/MM/YYYY`. |
| Dates.FormatDateCourt | src/utils.js:56-62 | For a four-digit year, the short format is the ISO format's day, month and year in that order, separated by slashes. |

## Left out

- Floating point: numbers are integers. Percentages are computed exactly, with halves rounded up as `Math.round` does.
- Time zones, locales and the clock:
  - "now" and "today" are parameters;
  - `toISOString`'s UTC date versus the local week of a new form is not modelled;
  - engine parsing of date strings other than `YYYY-MM-DD` gives `NaN`.
- Liste.SortKey: `localeCompare` is modelled as code-point order, not locale collation. A truthy date that is not a string is compared through its `String()` form, and the TypeError the comparator can throw on it is not modelled.
- Store.AddRecord / Store.PutRecord: only numeric keys are modelled. A string or array `id`, which IndexedDB accepts as a key, is a DataError here, so records keyed that way are not modelled. `parseInt` of a non-numeric id gives `NaN`, which IndexedDB refuses with a DataError, as the model does. Hexadecimal `parseInt` prefixes are not modelled. The IndexedDB key generator stops at 2^53: once an explicit `id` at or above that is stored, an add without an `id` fails with a ConstraintError in the browser. The model's `nextKey` is unbounded, so that add succeeds here.
- Json.Spread: spreading a string or an array into an object is modelled as spreading nothing.
- Text.Lower: case mapping covers ASCII and Latin-1 letters only.
- Json.Names: entries of a stored list that are not strings are dropped. A stored list that is truthy but not an array reads as `[]`. This covers `substances` and `poseurs` in Reglages.LoadSettings and `participants` in TirageSort.DrawTool.constructor. An import does not validate these documents, and the browser keeps such a value and later throws a TypeError on `.map`, `.some` or `.filter`; that TypeError is not modelled.
- Reglages.LoadSettings: a stored `substances` or `poseurs` that is truthy but not an array loads as `[]`, where the page keeps it and throws a TypeError on `.map` (see `Json.Names`).
- TirageSort.DrawTool.constructor: a stored `participants` that is truthy but not an array loads as `[]`, where the page keeps it and throws a TypeError on `.some` or `.filter` (see `Json.Names`).
- TirageSort.PositionPercent: `None` stands for the `NaN` of a position beyond the counts, for the TypeError of an entry without counts, and for the TypeError of a name the table only inherits. An entry whose counts are not an array of numbers is refused as a TypeError, where the browser may compute a `NaN`. A table that is not an object reads as having no entries.
- DrawStats.Entry: only entries of the form `recordTirageResult` writes are read: an array of numeric counts and a numeric total. Any other truthy entry fails the draw with a TypeError. In the browser a missing or non-numeric total becomes `NaN` through `++`, non-numeric counts are coerced the same way, and the draw goes on.
- DrawStats.Step: as a consequence of `DrawStats.Entry`, one iteration over a malformed stored entry fails with a TypeError here, where the browser goes on with coerced counts. The inherited-name TypeError is modelled.
- DrawStats.RecordTirage: a draw over a malformed stored entry fails with a TypeError here, as `DrawStats.Step` does. A stored table that is an array, which the browser indexes like an object and saves, is refused with a TypeError too.
- Dates.WeekNumber: `Date.UTC` maps years 0 to 99 to 1900 to 1999 (src/utils.js:12,15). The model uses the proleptic year throughout, so week numbers of those years are not the browser's.
- TirageSort.Shuffle: the random source is a parameter of each step. The uniformity of the shuffle is not modelled, nor the 53-bit precision of `Math.random`.
- Store.ImportAll: an import whose `forEach` throws inside a request callback leaves the promise unsettled in the browser. The model reports it as a failure.
- RechercheForm.ChargeChange: requires the row index to be one of the ten rows rendered.
- File reading and JSON parsing, `confirm`/`prompt`, toasts, navigation, `setTimeout` reloads, rendering and CSS: the user's answers are parameters, and the rest is not modelled.
- The list page's own `handleDelete`: it is `deleteFiche` after a confirmation, as `Store.DeleteFiche` and `Forms.Delete` model. Its reload of the list is not modelled.
- Opening the database (`openDB`) beyond a first visit: schema upgrades and a blocked or failed open are not modelled.

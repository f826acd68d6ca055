# Screening package builder — a Dafny model of its core

The screening package builder is a browser application for preparing a
Marine Corps screening package. It covers two programs: a warrant officer
application and a recruiting duty screening. A package starts from a template:
- the package type's fixed list of documents, each required or optional;
- the package type's routing chain, the commands that must endorse it.

The user then works on the package:
- ticks documents off on a checklist, filtered by status and grouped by category;
- records each routing step's signature, date and recommendation;
- fills in a cover sheet, which lists the finished documents as numbered enclosures;
- exports the checklist and the cover sheet as PDF files.

Packages are kept in the browser's local storage under a common key prefix. A
theme manager stores the chosen colour theme there as well.

This project models that core as Dafny modules, one per source file:

| module | source |
|---|---|
| `PackageModel` | the package record, its documents and routing steps, and the cloning of a template into a fresh package |
| `WarrantOfficer`, `Recruiting` | the two templates: phases, documents, default routing and `createPackage` |
| `PackageRegistry` | `js/packages/index.js`: template lookup, package creation, checklist and routing progress |
| `DateUtils` | `js/lib/date-utils.js`: the three date formats, days until a deadline, relative-time text, age |
| `StorageUtil` | `js/lib/storage.js`: a `Storage` class over the ordered local-storage keys and their entries |
| `Theme` | `js/lib/theme.js`: a `ThemeManager` class holding the page's theme attribute and the saved theme |
| `Checklist` | `js/checklist.js`: status filter, category grouping, status icons, the edit dialog and the status toggle |
| `Routing` | `js/routing.js`: signing and un-signing steps, the step editor, status text and the printed routing sheet |
| `CoverSheet` | `js/cover-sheet.js`: the on-screen cover sheet and the form that updates the applicant's details |
| `Export` | `js/export.js`: the content of the checklist PDF and the cover sheet PDF, their file names and the summary export |
| `Seqs`, `Text`, `Wrappers` | shared helpers: filtering, first index, stable insertion sort, decimal digits, `Option`/`Result` |

Functions with no side effects are Dafny functions. The managers that hold a
`currentPackage` and change it in place are classes:
- `Checklist.ChecklistManager`;
- `Routing.RoutingManager`;
- `CoverSheet.CoverSheetGenerator`;
- `Theme.ThemeManager`;
- `StorageUtil.Storage`.

Each method changes exactly the state its `modifies` clause names. Its
postcondition ties the new state to a specification function, such as
`SaveDocumentSpec`, `MarkSignedSpec` or `WithCoverForm`. The lemmas are
stated about those functions.

Inputs from the environment are parameters:
- the current time (`now`, `today`);
- the browser's date parser (`parse`) and the local time zone (`zone`);
- the random suffix of a package id;
- whether the browser accepted a storage write;
- whether the PDF library loaded;
- the values typed into forms.

JSON serialisation is the identity: a stored entry either holds the value or
is unreadable.

## Model

| member | source | states |
|---|---|---|
| WarrantOfficer.CreatePackage | js/packages/warrant-officer.js:497-543 | Applicant fields default to the empty string. The board fields are always present. The phase is 1 and nothing is waived. Every template document is cloned as incomplete with no notes, date or attachments. Routing steps are numbered from 1, pending and unsigned. |
| WarrantOfficer.DocumentIdsAreOneToNineteen | js/packages/warrant-officer.js:115-493 | The template lists 19 documents whose ids run 1..19 in order. |
| WarrantOfficer.DocumentsListedByTheirPhase | js/packages/warrant-officer.js:26-71 | Every document's id appears in the document list of the phase it names. |
| WarrantOfficer.PhaseListsAgreeWithDocuments | js/packages/warrant-officer.js:26-71 | Every id a phase lists is a document of that phase. |
| WarrantOfficer.PhaseListsHaveNoRepeats | js/packages/warrant-officer.js:26-71 | No phase lists a document twice. |
| WarrantOfficer.OptionalDocuments | js/packages/warrant-officer.js:466-481 | Exactly documents 11, 18 and 19 are optional. Document 18 is conditionally required for female applicants but still optional. |
| Recruiting.CreatePackage | js/packages/recruiting.js:201-242 | Applicant fields default to the empty string. The preferred district is always present. There is no board, target MOS or phase. Documents are cloned as incomplete, without attachments. Routing steps are numbered from 1 and pending. |
| Recruiting.DocumentIdsAndOptionality | js/packages/recruiting.js:44-198 | The template lists 18 documents with ids 1..18. Only document 18 is optional. |
| PackageModel.CloneDocuments | js/packages/warrant-officer.js:517-523 | Each template document becomes a package document with the same fields, status incomplete, empty notes and no completion date. |
| PackageModel.CloneRouting | js/packages/warrant-officer.js:529-536 | Step i of the template becomes step id i+1, with the same level, required flag and description. It is pending, unnamed, undated and has no recommendation. |
| PackageRegistry.GetTemplate | js/packages/index.js:41-43 | A template is found exactly for the two registered ids. Every other id gives none. |
| PackageRegistry.GetTemplateAsWritten | js/packages/index.js:41-43 | The lookup as written also yields a truthy inherited member for the names of Object.prototype. |
| PackageRegistry.InheritedNameIsNotNull | js/packages/index.js:56-62 | `getTemplate("toString")` is not null, and `createPackage("toString")` fails calling a missing method instead of reporting an unknown type. |
| PackageRegistry.CreatePackage | js/packages/index.js:56-62 | Creation fails with "Unknown package type: id" exactly for an unregistered id. Otherwise the package is exactly the one the template's own `createPackage` builds with the given id and time. |
| PackageRegistry.DisplayName | js/export.js:29 | A package shows its template's name, or its stored package name when the type is unknown. |
| PackageRegistry.CreatedPackageDisplayName | js/packages/index.js:56-62 | A created package is displayed under its template's name. |
| PackageRegistry.Percent | js/packages/index.js:78 | `Math.round(100 * part / whole)` with ties rounded up. It lies in 0..100, and 0 and 100 are reached at the extremes. |
| PackageRegistry.CalculateProgress | js/packages/index.js:65-84 | No package gives all zeros. Otherwise the figures are: required = the count of required documents; complete = the count of required documents that are complete or not applicable; missing = the required incomplete documents; waiverNeeded = the documents needing a waiver; percentage = Percent(complete, required). |
| PackageRegistry.ProgressMembership | js/packages/index.js:70-75 | A document is listed missing exactly when it is required and incomplete. It is listed as needing a waiver exactly when its status says so. A required document needing a waiver is neither missing nor done. |
| PackageRegistry.PercentExtremes | js/packages/index.js:78 | For fewer than 200 required documents, 100% means all are done and 0% means none are. |
| PackageRegistry.PercentageExtremes | js/packages/index.js:65-84 | For 1 to 199 required documents, the package shows 100% exactly when every required document is done, and 0% exactly when none is. |
| PackageRegistry.OptionalStatusChangeKeepsProgress | js/packages/index.js:70-78 | Changing the status of an optional document leaves the percentage, the complete count and the required count as they were. |
| PackageRegistry.CompletingRequiredDocument | js/packages/index.js:70-78 | Finishing a required incomplete document adds one to complete and removes one from missing. |
| PackageRegistry.GetRoutingProgress | js/packages/index.js:87-100 | total is the number of steps, signed counts the signed ones and pending lists the unsigned steps in chain order, so signed plus the pending count is the total. No package gives zeros. |
| PackageRegistry.FreshDocumentsProgress | js/packages/index.js:65-84 | A freshly cloned package has 0% done, nothing complete and every required document missing. |
| PackageRegistry.FreshRoutingProgress | js/packages/index.js:87-100 | A freshly cloned routing chain has nothing signed and every step pending. |
| PackageRegistry.FreshWarrantOfficerProgress | js/packages/warrant-officer.js:497-543 | A new warrant officer package has 16 required documents, all missing, at 0%. No waivers are needed, and all 4 routing steps are pending. |
| PackageRegistry.FreshRecruitingProgress | js/packages/recruiting.js:201-242 | A new recruiting package has 17 required documents, all missing, at 0%. No waivers are needed, and all 3 routing steps are pending. |
| DateUtils.FormatMilitary | js/lib/date-utils.js:7-16 | The empty string exactly for a missing date. An unparsable date prints "NaN undefined NaN". |
| DateUtils.MilitaryRoundTrip | js/lib/date-utils.js:7-16 | Reading back "DD Mon YYYY" gives the date that was printed. |
| DateUtils.FormatNumeric | js/lib/date-utils.js:19-26 | The empty string exactly for a missing date. An unparsable date prints "NaNNaNNaN". |
| DateUtils.FormatISO | js/lib/date-utils.js:29-36 | The empty string exactly for a missing date. An unparsable date prints "NaN-NaN-NaN". |
| DateUtils.ISORoundTrip | js/lib/date-utils.js:29-36 | Parsing "YYYY-MM-DD" back gives the date that was printed, for four-digit years. |
| DateUtils.NumericIsISOWithoutSeparators | js/lib/date-utils.js:19-36 | The numeric form is the ISO form with its hyphens removed. |
| DateUtils.StoredDate | js/checklist.js:202-204 | An absent or empty stored date is missing. Any other is handed to the date parser. |
| DateUtils.CeilDiv | js/lib/date-utils.js:46 | `Math.ceil(a / b)`: the least r with a <= r·b. |
| DateUtils.DaysUntilAsWritten | js/lib/date-utils.js:39-48 | No deadline gives null and an invalid one gives NaN. Otherwise the result is the ceiling of the span between the two local midnights, in days. |
| DateUtils.DaysUntilAsWrittenWithoutOffsetChange | js/lib/date-utils.js:39-48 | When the zone's offset is the same on both dates, the count is the difference in calendar days. |
| DateUtils.DaysUntilAsWrittenCountsClockChange | js/lib/date-utils.js:39-48 | Across the end of daylight saving time, 9 calendar days are counted as 10. |
| DateUtils.DaysUntil | js/lib/date-utils.js:39-48 | Whenever the offset changes by less than half a day, the count is the difference in calendar days. |
| DateUtils.Classify | js/lib/date-utils.js:63-72 | Each case of `getRelativeTime` holds exactly for its range of days. The weeks and months are the ceilings of days/7 and days/30. |
| DateUtils.GetRelativeTime | js/lib/date-utils.js:63-72 | Worded from the day count `daysUntil` as written returns. Empty exactly when there is no deadline, "NaN months remaining" for an invalid date, "n days overdue" for a past date, "Due today" and "Due tomorrow" for 0 and 1, days up to 7, weeks rounded up up to 30, and months rounded up beyond. |
| DateUtils.RelativeTimeWithoutOffsetChange | js/lib/date-utils.js:39-72 | When the zone's offset is the same on both dates, the text counts calendar days. |
| DateUtils.RelativeTimeAcrossClockChange | js/lib/date-utils.js:39-72 | A deadline one calendar week after 1 November 2024 in US Eastern time reads "2 weeks remaining", where the calendar count gives "7 days remaining". |
| DateUtils.CalculateAge | js/lib/date-utils.js:51-60 | The age is the number of birthdays passed: today is on or after the birthday of that age, and before the next one. |
| StorageUtil.LoadFrom | js/lib/storage.js:18-26 | Gives the stored value when the key holds a readable entry. Gives the default when the key is absent or its entry cannot be parsed. |
| StorageUtil.Storage.constructor | js/lib/storage.js:6 | Storage starts empty. |
| StorageUtil.Storage.Save | js/lib/storage.js:8-16 | An accepted write stores the value under the prefixed key and appends a new key at the end. `load` then returns the value. A refused write changes nothing and reports false. |
| StorageUtil.Storage.RemoveItem | js/lib/storage.js:29 | Removes exactly that key and its entry. |
| StorageUtil.Storage.Remove | js/lib/storage.js:28-30 | After `remove`, `load` returns the default. |
| StorageUtil.Storage.Clear | js/lib/storage.js:32-42 | Exactly the keys under the storage prefix followed by the given prefix are removed. Every other entry stays as it was. |
| StorageUtil.Storage.RemoveIfUnder | js/lib/storage.js:36 | One round of the loop removes the key only when it lies under the prefix. |
| StorageUtil.Storage.RemoveUnder | js/lib/storage.js:34-40 | The remaining keys are the snapshot filtered in order, and the remaining entries are unchanged. |
| StorageUtil.Storage.GetAllPackages | js/lib/storage.js:44-58 | The result is a permutation of the readable entries under package keys, sorted newest first; packages with the same lastUpdated keep the store's key order (a stable sort). Every such entry is in it. |
| StorageUtil.GeneratePackageId | js/lib/storage.js:60-62 | The id is "package-" + the time + "-" + at most 9 characters, so its stored key is a package key. |
| StorageUtil.SavedPackageIsListed | js/lib/storage.js:8-58 | A package saved under a generated id is among those `getAllPackages` reads. |
| Theme.NextTheme | js/lib/theme.js:33-37 | The next theme is always one of the three. An unknown current theme goes to the default. A known one always changes. |
| Theme.CycleOrder | js/lib/theme.js:8 | dark → light → night → dark. |
| Theme.ThreeCyclesReturn | js/lib/theme.js:33-37 | Three cycles return to the starting theme. |
| Theme.ThemeManager.constructor | js/lib/theme.js:16 | The saved theme is what storage holds, and no theme attribute is set yet. |
| Theme.ThemeManager.GetCurrent | js/lib/theme.js:43-45 | The attribute's value when it is set and non-empty. The default when it is unset or empty. |
| Theme.ThemeManager.SetTheme | js/lib/theme.js:26-30 | Sets the attribute and the saved value to the theme. |
| Theme.ThemeManager.Init | js/lib/theme.js:15-24 | A saved known theme is applied. Otherwise the default is, and it is saved. |
| Theme.ThemeManager.Cycle | js/lib/theme.js:33-37 | Applies and saves NextTheme of the current theme. |
| Theme.ThemeManager.Toggle | js/lib/theme.js:39-41 | The same as Cycle. |
| Checklist.FilteredDocuments | js/checklist.js:114-124 | No package shows nothing. "All" shows every document. A status filter shows exactly the documents with that status, in order. |
| Checklist.FilterViewsAgreeWithProgress | js/checklist.js:114-124 | The waiver filter shows exactly the progress's waiver list, and every missing document is among the incomplete ones. |
| Checklist.CategoryOf | js/checklist.js:129 | A document without a category falls under "Other". |
| Checklist.AddToKeepsGroups | js/checklist.js:127-136 | Adding one document keeps each group equal to the documents of its category, in order. |
| Checklist.AddToCountsOne | js/checklist.js:127-136 | Adding a document adds one document across the groups. |
| Checklist.GroupByCategory | js/checklist.js:127-136 | There is one non-empty group per distinct category, each holding exactly its category's documents in order. Every document's category has a group, and the group sizes add up to the number of documents. Groups come in the order their categories first occur. |
| Checklist.StatusIcon | js/checklist.js:139-147 | The empty box is shown exactly for incomplete and unknown statuses. |
| Checklist.StatusLabel | js/checklist.js:150-158 | "Unknown" exactly for an unknown status. |
| Checklist.IconsAndLabelsDistinguishStatuses | js/checklist.js:139-158 | Labels tell every status apart. Icons tell the known statuses apart. |
| Checklist.OpenEditModal | js/checklist.js:182-208 | No form when no document has the id. Otherwise the form holds the first such document's status and notes, and its date in ISO form. |
| Checklist.Edited | js/checklist.js:220-222 | Saving sets the status and notes. An empty date clears the completion date. Nothing else changes. |
| Checklist.SaveDocumentSpec | js/checklist.js:211-236 | Only the first document with the id changes. Every other entry keeps its identity. An unknown id changes nothing. |
| Checklist.OpenThenSave | js/checklist.js:182-236 | Saving the form as opened keeps every document's status and notes. When the stored date survives the ISO round trip, the documents are unchanged. |
| Checklist.Toggled | js/checklist.js:249-255 | A complete document becomes incomplete and undated. Any other becomes complete, dated now. |
| Checklist.ToggleTwice | js/checklist.js:245-260 | Toggling twice restores a complete document, dated by the second toggle. Any other document ends up incomplete and undated. |
| Checklist.ToggleSpec | js/checklist.js:245-260 | Only the first document with the id is toggled. An unknown id changes nothing. |
| Checklist.ToggleRequiredProgress | js/checklist.js:245-260 | Toggling a required document, by its status before: incomplete adds one to complete and removes one from missing; complete does the reverse; not applicable changes neither; waiver needed or unknown adds one to complete and leaves missing alone. The required count never moves. |
| Checklist.ToggleOptionalProgress | js/checklist.js:245-260 | Toggling an optional document leaves the progress figures unchanged. |
| Checklist.ChecklistManager.constructor | js/checklist.js:6-7 | No package and the "all" filter. |
| Checklist.ChecklistManager.Init | js/checklist.js:10-14 | Holds the given package. |
| Checklist.ChecklistManager.SetFilter | js/checklist.js:164-166 | Sets the filter and nothing else. |
| Checklist.ChecklistManager.SaveDocument | js/checklist.js:211-236 | The package's documents become SaveDocumentSpec's. The package is stamped now and saved under its id. An unknown id changes nothing. A saved package keeps its key's place in the store, and a new one is listed last. |
| Checklist.ChecklistManager.ToggleStatus | js/checklist.js:245-260 | The package's documents become ToggleSpec's. The package is stamped and saved. An unknown id changes nothing. A saved package keeps its key's place in the store, and a new one is listed last. |
| Routing.FindFirstStep | js/routing.js:129 | `findIndex` by id gives the first step with that id. |
| Routing.MarkedSigned | js/routing.js:132-133 | Status signed, dated now. Nothing else changes. |
| Routing.MarkedUnsigned | js/routing.js:151-152 | Status pending, undated. Nothing else changes. |
| Routing.MarkSignedSpec | js/routing.js:128-144 | Only the first step with the id is signed. An unknown id changes nothing. |
| Routing.MarkUnsignedSpec | js/routing.js:147-163 | Only the first step with the id is un-signed. An unknown id changes nothing. |
| Routing.UndoRestoresChain | js/routing.js:128-163 | Signing a pending undated step and then undoing it restores the chain. |
| Routing.SigningProgress | js/packages/index.js:87-100 | Signing a step keeps the total and adds one signature, unless the step was already signed. |
| Routing.UnsigningProgress | js/packages/index.js:87-100 | Un-signing a step keeps the total and removes one signature exactly when the step was signed. |
| Routing.ActionButton | js/routing.js:80-88 | A signed step offers Undo. Any other step offers Mark Signed. |
| Routing.PressingTheButtonSwapsIt | js/routing.js:80-88 | Pressing the button a step shows leaves the step showing the other button. |
| Routing.RecommendsFrom | js/routing.js:213-214 | "yes" is true, "no" is false, anything else is null. |
| Routing.RecommendsRadio | js/routing.js:187-195 | The radio the editor checks reads back as the stored recommendation. |
| Routing.StatusRadio | js/routing.js:182-184 | A known status checks its own radio. Any other status checks none. |
| Routing.OpenStepEditor | js/routing.js:166-201 | No editor for an unknown id. Otherwise it shows the step's name, status, ISO date and recommendation. |
| Routing.SavedStep | js/routing.js:209-214 | Sets the name, the chosen status (pending when none is chosen), the date and the recommendation. The step's id, level, required flag and description are unchanged. |
| Routing.SaveStepSpec | js/routing.js:204-226 | Only the first step with the id is rewritten. An unknown id changes nothing. |
| Routing.OpenThenSaveStep | js/routing.js:166-226 | Saving the editor as opened keeps the step's name and recommendation. A known status is kept, and an unknown status becomes pending. With a known status and a date that survives the round trip, the chain is unchanged. |
| Routing.StatusText | js/routing.js:57-59 | Each status has its own text, and signed steps read "Signed: date". |
| Routing.RecommendsText | js/routing.js:61-62 | Empty exactly when there is no recommendation. Otherwise it names the recommendation. |
| Routing.SheetRows | js/routing.js:331-342 | One printed row per step, in chain order, numbered from 1, showing the step's level, its signer and its stored date in military format. A step with no date shows an empty date cell. |
| Routing.PrintRoutingSheet | js/routing.js:302-316 | The heading is the program name + " Package<br>Routing Sheet". Rank and name are the applicant's, or 5 and 21 underscores when empty. The date is today's, and the rows are SheetRows of the routing. |
| Routing.FreshRoutingSheet | js/routing.js:331-342 | A freshly cloned routing prints one row per template step, with its level, no signer and no date. |
| Routing.RoutingManager.constructor | js/routing.js:6 | No package. |
| Routing.RoutingManager.Init | js/routing.js:9-12 | Holds the given package. |
| Routing.RoutingManager.Commit | js/routing.js:135-136 | Replaces the routing, stamps the package and saves it under its id. A saved package keeps its key's place in the store, and a new one is listed last. |
| Routing.RoutingManager.MarkSigned | js/routing.js:128-144 | The routing becomes MarkSignedSpec's and is saved. An unknown id changes nothing. A saved package keeps its key's place in the store, and a new one is listed last. |
| Routing.RoutingManager.MarkUnsigned | js/routing.js:147-163 | The routing becomes MarkUnsignedSpec's and is saved. An unknown id changes nothing. A saved package keeps its key's place in the store, and a new one is listed last. |
| Routing.RoutingManager.SaveStep | js/routing.js:204-226 | The routing becomes SaveStepSpec's and is saved. An unknown id changes nothing. A saved package keeps its key's place in the store, and a new one is listed last. |
| CoverSheet.Enclosures | js/cover-sheet.js:135-137 | The enclosures are exactly the documents that are complete or need a waiver: a permutation of them, sorted by id; documents with the same id keep their checklist order (a stable sort). |
| CoverSheet.ItemLabel | js/cover-sheet.js:208 | The name, followed by " *" exactly when a waiver is needed. |
| CoverSheet.Field | js/cover-sheet.js:150-169 | An empty value prints a blank. Any other prints itself. |
| CoverSheet.Shown | js/cover-sheet.js:178-195 | A type-specific field is shown exactly when it is present and non-empty. |
| CoverSheet.EnclosureSectionOf | js/cover-sheet.js:202-214 | The count is the number of enclosures. Item i is numbered i+1 with the i-th enclosure's name. The note follows exactly when some item is marked. |
| CoverSheet.EnclosuresAreTheFinishedDocuments | js/cover-sheet.js:135-137 | A document is listed as an enclosure exactly when it is complete or needs a waiver. |
| CoverSheet.WaiverNoteMatchesProgress | js/cover-sheet.js:212-214 | The waiver footnote appears exactly when the progress reports a document needing a waiver. |
| CoverSheet.WaiverLines | js/cover-sheet.js:217-228 | One line per waiver, in order. |
| CoverSheet.GenerateCoverSheet | js/cover-sheet.js:129-248 | The title is the program name + " APPLICATION". Every applicant field is printed or left blank. Type fields appear only when filled. The date prepared is today's. The enclosures are those of the package. Each waiver prints as its type and reason, in order. |
| CoverSheet.FreshPackageEnclosesNothing | js/cover-sheet.js:135-137 | A new package has no enclosures and no waiver footnote. |
| CoverSheet.WithCoverForm | js/cover-sheet.js:274-297 | The applicant fields take the form's values or empty. The board fields change only for a warrant officer package, and the district only for a recruiting one. The package is stamped, and nothing else changes. |
| CoverSheet.UpdateIsIdempotent | js/cover-sheet.js:274-297 | Submitting the same form twice equals submitting it once. |
| CoverSheet.UpdateThenGenerate | js/cover-sheet.js:274-303 | After an update the preview shows the form's values, and the progress is unchanged. |
| CoverSheet.CoverSheetGenerator.constructor | js/cover-sheet.js:6 | No package. |
| CoverSheet.CoverSheetGenerator.Init | js/cover-sheet.js:9-13 | Holds the given package. |
| CoverSheet.CoverSheetGenerator.UpdatePackageInfo | js/cover-sheet.js:274-303 | The package becomes WithCoverForm's and is saved. The preview is regenerated from it. A saved package keeps its key's place in the store, and a new one is listed last. |
| Export.StatusSymbol | js/export.js:79-81 | "[ ]" exactly for incomplete and unknown statuses. |
| Export.SymbolsDistinguishStatuses | js/export.js:79-81 | Known statuses print different symbols. |
| Export.ItemLine | js/export.js:84 | The line is the symbol, a space, the document's number, ". " and the document's name. |
| Export.ItemOf | js/export.js:84-110 | An item is optional exactly when the document is not required. It carries "Note: notes" exactly when there are notes. |
| Export.ToUpper | js/export.js:67 | Lower-case ASCII letters are upper-cased and nothing else changes. |
| Export.ToUpperIsIdempotent | js/export.js:67 | Upper-casing twice equals upper-casing once. |
| Export.TotalItemsOfSections | js/export.js:49-110 | The sections print as many lines as the groups hold documents. |
| Export.ChecklistPdfOf | js/export.js:7-131 | The PDF has the title, the applicant line when there is a name, the military date and the progress line. Its sections are the category groups, with items in order, followed by the legend. |
| Export.ChecklistPrintsEveryDocumentOnce | js/export.js:49-110 | The checklist prints as many item lines as the package has documents. |
| Export.ChecklistPrintsDocumentUnderItsCategory | js/export.js:49-110 | Every document is printed in the section headed by its upper-cased category. |
| Export.Collapse | js/export.js:134-135 | Replacing white-space runs leaves no white space and never lengthens the text. |
| Export.SanitizeIsIdempotent | js/export.js:134-135 | Sanitising a sanitised name changes nothing. |
| Export.CollapseKeepsText | js/export.js:134-135 | Apart from the inserted underscores, the result's characters are the input's non-space characters, in order. |
| Export.Filename | js/export.js:134-135 | The name (or "package"), sanitised, then the infix, the numeric date and ".pdf". The result has no white space. |
| Export.ChecklistFilename | js/export.js:134-135 | The checklist file is "name_checklist_YYYYMMDD.pdf" with no white space. |
| Export.CoverSheetFilename | js/export.js:302-303 | The cover sheet file is "name_coversheet_YYYYMMDD.pdf" with no white space. |
| Export.PdfValue | js/export.js:184-190 | An empty value prints a line of underscores. |
| Export.OptionalField | js/export.js:211-213 | A type field is printed exactly when it is present and non-empty. |
| Export.PackageFields | js/export.js:209-214 | Program first, date prepared last, and the filled-in type fields between them. |
| Export.CoverPdfOf | js/export.js:141-266 | The cover PDF's title, applicant and package fields, enclosure lines, waiver note and waiver lines. |
| Export.BlanksAgree | js/export.js:184-190 | The PDF and the screen leave the same fields blank. |
| Export.CoverPdfMatchesSheet | js/export.js:141-266 | The PDF and the on-screen sheet agree on the title, program, date, optional fields, numbered enclosures, footnote and waiver count. |
| Export.ExportChecklist | js/export.js:7-138 | Nothing happens without a package. A missing library gives its message. Otherwise the checklist PDF is saved under the checklist file name. |
| Export.ExportCoverSheet | js/export.js:141-306 | The same three outcomes for the cover sheet. |
| Export.ExportPackageSummary | js/export.js:309-325 | Without a package nothing is exported. A missing library reports its message. Otherwise both PDFs are exported. |
| Export.SummaryFilenamesDiffer | js/export.js:309-325 | The two summary files never share a name. |

## Left out

- Rendering: the HTML markup, event binding, toasts, modals and the print window are not modelled. Only the content the views and PDFs show is modelled: titles, values, lines and their order. jsPDF page layout, fonts, page breaks and the wrapped description lines are not modelled either.
- The routing progress bar's width is not modelled. In `printRoutingSheet` the Recommends cell (two constant check boxes), the empty signature cell, the styles and the instructions are not modelled.
- PackageRegistry.DisplayName: built on the corrected template lookup, so a type named like an Object.prototype member (`toString`) falls back to the package name, where the source would show the inherited function's name. A package's type only ever comes from a registered template id, so this cannot happen.
- Checklist.GroupByCategory: a category named like an Object.prototype member (`constructor`, `toString`) finds a truthy inherited value in `groups[category]`, and `.push` then throws. A category that looks like an integer would be listed before the others. Neither can happen with the fixed template categories, and groups are modelled as a plain list in first-seen order.
- Export.ExportPackageSummary: the 500 ms delay between the two downloads is modelled only as their order: cover sheet, then checklist.
- Parsing dates is a parameter, `parse`, and the local time zone is a function `zone` from dates to offsets. The JavaScript `Date` object is not modelled.
- Percentages assume exact arithmetic with ties rounded up, as `Math.round` does. Floating-point rounding of `(part / whole) * 100` is not modelled.
- StorageUtil.Storage.Save: a write the browser refuses (its quota) is the `accepted` parameter. The error's logging is not modelled.
- JSON round trips are the identity. The key order of `localStorage` is the order keys were first written. Objects with integer-like keys are not modelled.
- Export.ToUpper: only ASCII letters are upper-cased. JavaScript's full Unicode `toUpperCase` is not modelled.
- DateUtils.CalculateAge: a missing birth date gives no age. The source's `new Date(null)` arithmetic is not modelled.
- The values of the status radio buttons come from `index.html`, which is not part of this model. An unrecognised routing status is the single value `OtherStep`. An unrecognised document status is `Unset`.
- `conditionalRequired` is kept on the document but does not affect `required`, as in the source.
- The checklist's `sortBy` field is never read by the source and is not modelled.
- Theme icons and `updateAllToggleButtons` only touch the page and are not modelled.
- `getAvailableTypes` and `getComingSoonTypes` return constant lists and are not modelled.
- Aliasing is not modelled. Each manager holds its own copy of the current package, and saving is an explicit write to a `Storage` object.
- `app.js`, `preview-manager.js` and `service-worker.js` are not part of this model.

## Findings

| source | as written | input that shows it | evidently intended | confidence | as-written member | corrected member |
|---|---|---|---|---|---|---|
| js/packages/index.js:41-43 | `this.types[id] \|\| null` also finds names inherited from Object.prototype | `createPackage("toString")` finds a function that is not a template, then fails calling `template.createPackage` | only the two registered ids find a template, and any other id reports "Unknown package type" | not executed; high | PackageRegistry.InheritedNameIsNotNull | PackageRegistry.GetTemplate |
| js/lib/date-utils.js:39-48 | `Math.ceil` of the span between two local midnights | from 1 to 10 November 2024 in US Eastern time: 9 days and 1 hour, counted as 10 days; `getRelativeTime` from 1 to 8 November reads "2 weeks remaining" | the number of calendar days, here 9 | not executed; medium | DateUtils.DaysUntilAsWrittenCountsClockChange | DateUtils.DaysUntil |

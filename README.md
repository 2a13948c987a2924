# Uthai event calendar — a Dafny model

This project models the logic of a school and municipality activity calendar web application (Next.js with a Google Sheets back end):

- **API routes.** They read and write Days, Months, Years, Users and Settings in sheet tables. They check login credentials, store uploaded files on Google Drive or locally, and delete them.
- **Calendar rules** used by the pages. These decide what is an activity, a holiday or a working day, and how cells are coloured. They count working days and activities, and format Thai Buddhist-era dates.
- **Bulk import dialog.** It enumerates the days of months or of a date range and creates holiday and weekend days.
- **Upload form.** It decides which files to skip and which to compress, and how.
- **Editing state** of the side panel, the activities list, the day dialogs, the attachment gallery, the application context and the home page.

Each source file of the core has a module of its own, with the same name; dialog components are modelled as `DayDetailModal` and `DayEditModal`. Pure code is written as datatypes, functions and lemmas. Code that changes state step by step is written as classes with `modifies` clauses, or as methods with loops proved against specification functions.

Some modules are shared:
- `Types`: the records of src/lib/types.ts.
- `Sheets`: a sheet table as a class with clear, write, update and append.
- `CellCodec`: a proved encoding of the entries and attachments cells.
- `Calendar` and `ThaiDates`: civil-calendar arithmetic and Thai date labels.
- `Text`, `Sorting`, `Views`: string, sorting, filtering and counting helpers.
- `DayRules`: the first-entry keyword rules of the calendars.
- `Editing`: the edit state shared by the side panel and the activities list.
- `FileDisplay`: file icons and sizes, shared by the upload form and the gallery.

External services are parameters of the model. These are the Google Sheets and Drive calls, the file system, `fetch`, the image codecs and the clock.
- A call that can fail is an `Option`, a fault value, or an oracle result.
- The clock is a `timestamp` parameter.
- The browser's weekday of a `yyyy-MM-dd` string is the civil-calendar weekday. This holds for any non-negative UTC offset, as in the deployment's Asia/Bangkok.

## Model

| member | source | states |
|---|---|---|
| Sheets.Field | src/app/api/days/route.ts:32-33 | `row[i]?.toString() \|\| ''`: a missing cell reads as `''`, a text cell as its text |
| Sheets.FieldOr | src/app/api/days/route.ts:34 | `row[i] \|\| ''`: a missing cell or a `false` flag reads as `''`, a text cell as its text |
| Sheets.MapRows | src/app/api/days/route.ts:20 | `values.map(decode)`: one decoded value per row, in row order (also src/app/api/months/route.ts:25, src/app/api/years/route.ts:14, src/app/api/users/route.ts:14) |
| Sheets.Window | src/app/api/days/route.ts:16 | a bounded read range returns the first `cap` rows of the table, no more |
| Sheets.Sheet.Clear | src/app/api/days/route.ts:54-57 | clearing the table leaves no rows |
| Sheets.Sheet.WriteFromTop | src/app/api/days/route.ts:68-73 | writing from the first data row overwrites as many rows as are written and keeps the rest |
| Sheets.Sheet.UpdateRow | src/app/api/days/route.ts:117-132 | updating one row changes that row only |
| Sheets.Sheet.Append | src/app/api/days/route.ts:102-115 | appending adds one row at the end |
| Sheets.ReplaceAll | src/app/api/months/route.ts:61-80 | clear then write: on success the table is exactly the written rows; a failing clear leaves it unchanged; a failing write leaves it empty; an empty write skips the update and succeeds |
| DaysRoute.DecodeLists | src/app/api/days/route.ts:21-29 | empty cells give `[]`; an entries cell that does not parse leaves both lists empty; an attachments cell that does not parse keeps the parsed entries |
| DaysRoute.DecodeRow | src/app/api/days/route.ts:20-37 | the id and month id are the first two cells read with `?.toString() \|\| ''`, the date the third read with `\|\| ''`, and the entries and attachments the lists the shared `try` parses; a decoded day always has an attachments list, and a row shorter than three cells has an empty date |
| DaysRoute.ShortRowDecodes | src/app/api/days/route.ts:31-37 | a row the sheet cut short decodes with `''` for its missing cells and `[]` for both lists; an empty row gives a day with every text empty |
| DaysRoute.Get | src/app/api/days/route.ts:8-11 | no spreadsheet id, or a failed read, gives `[]`; otherwise one day per row read, the i-th being the decoding of the i-th row (also src/app/api/days/route.ts:41-45) |
| DaysRoute.RowRoundTrip | src/app/api/days/route.ts:60-66 | decoding the row written for a day gives the day back, with missing attachments as `[]` (also src/app/api/days/route.ts:20-37) |
| DaysRoute.DayRows | src/app/api/days/route.ts:60-66 | one row per day, in input order |
| DaysRoute.StoredAll | src/app/api/days/route.ts:65 | each day as stored, with missing attachments written as `[]` |
| DaysRoute.GetAfterPost | src/app/api/days/route.ts:54-74 | reading back a table written by `POST` gives the posted days, as stored (also src/app/api/days/route.ts:14-38) |
| DaysRoute.Post | src/app/api/days/route.ts:48-84 | on success the table holds exactly the rows of the posted days; a single object (no array) clears the table and still answers success; a failing clear answers 500 and changes nothing; a failing write of a non-empty list answers 500 and leaves the table empty; an empty list is never written and answers success |
| DaysRoute.FindRow | src/app/api/days/route.ts:92-98 | `findIndex` over the id column of the read range: the first row whose id cell is the day's id, or none in range |
| DaysRoute.FirstFrom | src/app/api/days/route.ts:98 | the first index from `k` on whose id cell matches |
| DaysRoute.Put | src/app/api/days/route.ts:86-143 | on success the table is the upsert of the day; a failure answers 500 with the table unchanged |
| DaysRoute.UpsertedShape | src/app/api/days/route.ts:100-133 | a match overwrites exactly the matched row and keeps every other row; no match appends exactly one row; within the read range the day is then found |
| MonthsRoute.GeneratedNameOfMonth | src/app/api/months/route.ts:30-35 | a missing name of a `yyyy-MM` month is the full Thai month name, a space and the year plus 543 |
| MonthsRoute.DecodeRow | src/app/api/months/route.ts:25-43 | an existing name is kept; an empty name with a month value is generated; missing id, year id and month decode to `''` |
| MonthsRoute.Get | src/app/api/months/route.ts:13-16 | no spreadsheet id or a failed read gives `[]`; otherwise the decoded months sorted by their `month` value, as a permutation (also src/app/api/months/route.ts:45-53) |
| MonthsRoute.MonthRows | src/app/api/months/route.ts:67-72 | one `[id, yearId, month, name]` row per month, in input order |
| MonthsRoute.Post | src/app/api/months/route.ts:56-90 | on success the table holds exactly those rows; a failing clear answers 500 and keeps the table; a failing write of a non-empty list answers 500 and leaves the table empty; an empty list skips the write and succeeds on a cleared table |
| MonthsRoute.RowRoundTrip | src/app/api/months/route.ts:67-72 | a named month survives writing and reading (also src/app/api/months/route.ts:25-43) |
| MonthsRoute.DecodeWrittenRows | src/app/api/months/route.ts:67-72 | decoding the rows written for named months gives the months back (also src/app/api/months/route.ts:25-43) |
| MonthsRoute.GetAfterPost | src/app/api/months/route.ts:61-80 | reading back named months posted in month order gives the same list (also src/app/api/months/route.ts:19-46) |
| MonthsRoute.GetKeepsTableOrderPerMonth | src/app/api/months/route.ts:46 | the sort is stable: months with the same `month` value keep their table order |
| SettingsRoute.DecodeRows | src/app/api/settings/route.ts:13-25 | the `forEach` over the rows computes the fold of the rows over blank settings |
| SettingsRoute.FoldedIsLastValue | src/app/api/settings/route.ts:20-25 | each field is the value of the last row naming it with a non-empty value, else `''` |
| SettingsRoute.ForeignRowsIgnored | src/app/api/settings/route.ts:22 | rows whose key names no settings field change nothing |
| SettingsRoute.Get | src/app/api/settings/route.ts:5-39 | a read gives the folded settings; a failed read answers 500 with the error message |
| SettingsRoute.EntryRows | src/app/api/settings/route.ts:52 | one `[key, value]` row per entry, in entry order |
| SettingsRoute.Post | src/app/api/settings/route.ts:41-72 | on success the table holds exactly the entry rows, empty values included; a failing clear changes nothing; a failing write leaves the table empty; failures answer 500 |
| SettingsRoute.RoundTrip | src/app/api/settings/route.ts:14-25 | decoding the rows written for a settings value gives that value back (also src/app/api/settings/route.ts:52) |
| YearsRoute.DecodeRow | src/app/api/years/route.ts:14-20 | `isCurrent` holds iff the cell is the flag `true`, `'TRUE'` or `'true'`; the other fields read as `''` when missing |
| YearsRoute.CurrentFlagValues | src/app/api/years/route.ts:19 | `'TRUE'`, `'true'` and the flag `true` are current; `'True'`, `'1'` and a missing cell are not |
| YearsRoute.Get | src/app/api/years/route.ts:5-30 | a failed read answers 500, not an empty list; otherwise one year per row, the i-th being the decoding of the i-th row |
| YearsRoute.YearRows | src/app/api/years/route.ts:43-49 | one `[id, name, startDate, endDate, isCurrent]` row per year, in order |
| YearsRoute.Post | src/app/api/years/route.ts:32-67 | on success the table holds exactly those rows; a failing clear answers 500 and keeps the table; a failing write of a non-empty list answers 500 and leaves the table empty; an empty list skips the write and succeeds on a cleared table |
| YearsRoute.GetAfterPost | src/app/api/years/route.ts:37-57 | reading back posted years gives the first 99 of them unchanged (also src/app/api/years/route.ts:8-20) |
| UsersRoute.DecodeRow | src/app/api/users/route.ts:14-19 | every field of a user is its cell, `''` when missing |
| UsersRoute.Get | src/app/api/users/route.ts:5-29 | a failed read answers 500; otherwise one user per row, the i-th being the decoding of the i-th row |
| UsersRoute.UserRows | src/app/api/users/route.ts:43-48 | one `[id, username, password, fullname]` row per user, in input order |
| UsersRoute.Post | src/app/api/users/route.ts:31-66 | on success the table holds exactly those rows; a failing clear answers 500 and keeps the table; a failing write of a non-empty list answers 500 and leaves the table empty; an empty list skips the write and succeeds on a cleared table |
| UsersRoute.GetAfterPost | src/app/api/users/route.ts:14-19 | reading back posted users gives the first 99 of them unchanged (also src/app/api/users/route.ts:43-48) |
| LoginRoute.FindUser | src/app/api/auth/login/route.ts:45-47 | the first user whose username and password both match, or none |
| LoginRoute.AfterException | src/app/api/auth/login/route.ts:64-82 | after an exception admin/admin still logs in as the dev admin; anything else answers 500 `Login failed` |
| LoginRoute.Login | src/app/api/auth/login/route.ts:5-83 | without a spreadsheet id, success iff admin/admin, else 401; with one, success iff some row matches both credentials, else 401; an unreadable body or a failed read takes the exception path |
| LoginRoute.FirstMatchWins | src/app/api/auth/login/route.ts:45-57 | the first matching row is the user logged in, answered without its password |
| LoginRoute.AdminNeedsARow | src/app/api/auth/login/route.ts:12-28 | with the spreadsheet configured, admin/admin is refused unless a row holds that user (also src/app/api/auth/login/route.ts:45-63) |
| UploadRoute.ResizeTarget | src/app/api/upload/route.ts:32-37 | a width above 2000 resizes to width 2000; otherwise a height above 2000 resizes to height 2000; otherwise no resize |
| UploadRoute.WidthCheckedFirst | src/app/api/upload/route.ts:33-37 | a 2500 x 10000 image is resized by width only, so its height stays above 2000 |
| UploadRoute.StoredSize | src/app/api/upload/route.ts:291-302 | the stored size never exceeds the raw size; it is smaller exactly when the file is an image, the codec is present and its output is strictly shorter, and then it is that output's length (also src/app/api/upload/route.ts:24-26, src/app/api/upload/route.ts:335) |
| UploadRoute.SafeFileName | src/app/api/upload/route.ts:84 | the same length, every character in `[A-Za-z0-9._-]`, each such character kept and every other one replaced by `_` |
| UploadRoute.SafeFileNameIdempotent | src/app/api/upload/route.ts:84-86 | sanitising twice is sanitising once, and the result has no path separator |
| UploadRoute.LocalIdParts | src/app/api/upload/route.ts:85 | the local id is the timestamp, `_`, and the safe name: its text before the first `_` is the timestamp |
| UploadRoute.LocalIdInjective | src/app/api/upload/route.ts:83-85 | two local ids are equal only for the same timestamp and the same safe name |
| UploadRoute.UploadLocal | src/app/api/upload/route.ts:80-111 | a failed write fails with its message; otherwise the id is the local id and the url `/uploads/` + id; the thumbnail url is `/uploads/thumb_` + id iff a thumbnail was written, else the url |
| UploadRoute.UploadDrive | src/app/api/upload/route.ts:114-220 | authentication and create failures, and a missing id, fail with the source's messages; otherwise the Drive id, the view url, and the thumbnail url of the thumbnail file when one was created, else of the file |
| UploadRoute.ProcessFile | src/app/api/upload/route.ts:275-343 | each file is stored or reported, or both; a file above 10 MiB only adds the size error; in local mode it is stored iff the write succeeds; in Drive mode a Drive success stores it with no error, and a Drive failure reports an error and falls back to local storage |
| UploadRoute.FallbackReported | src/app/api/upload/route.ts:310-324 | when Drive fails and the local write succeeds, the file is stored under its local id and the fallback note names it |
| UploadRoute.Outcomes | src/app/api/upload/route.ts:275 | one outcome per file, in input order |
| UploadRoute.EveryFileAccounted | src/app/api/upload/route.ts:275-344 | no more attachments and no more errors than files, and together at least one per file |
| UploadRoute.CleanBatch | src/app/api/upload/route.ts:329-336 | when every file is stored without error, the attachments are those files' attachments in order and there are no errors |
| UploadRoute.Aggregate | src/app/api/upload/route.ts:346-366 | with nothing stored, 500 with details the errors joined by `; `, or `All uploads failed`; otherwise success with the files, and `partialErrors` present iff there are errors |
| UploadRoute.Post | src/app/api/upload/route.ts:222-378 | an unreadable form or no files answer 400; otherwise the per-file loop gives the aggregate of every file's outcome, with Drive used iff the folder is configured and authentication succeeds, decided once per batch |
| UploadRoute.LocalBatchSucceeds | src/app/api/upload/route.ts:271-273 | in local mode, with every file small enough and every write succeeding, every file comes back and there are no partial errors (also src/app/api/upload/route.ts:325-327) |
| UploadRoute.AllTooLarge | src/app/api/upload/route.ts:278-281 | when every file is too large, nothing is stored and there is one size error per file, in order |
| UploadRoute.Delete | src/app/api/upload/route.ts:380-426 | an unreadable body answers 500; a missing or empty id answers 400; an id with `_` not starting with `http` unlinks the file and, only if that succeeded, its thumbnail; any other id is deleted on Drive; storage errors are swallowed |
| UploadRoute.LocalIdsDeleteLocally | src/app/api/upload/route.ts:392-407 | every id a local upload hands out is deleted locally, together with its thumbnail name (also src/app/api/upload/route.ts:85) |
| UploadRoute.DriveUrlsRouteToDrive | src/app/api/upload/route.ts:174-175 | the Drive view and thumbnail urls, as ids, are never routed locally (also src/app/api/upload/route.ts:392) |
| UploadRoute.UnderscoreIdRoutesLocal | src/app/api/upload/route.ts:392 | a Drive id that contains `_` is routed to local deletion |
| FileDisplay.FileIcon | src/components/FileUpload.tsx:250-258 | the first matching rule decides, each icon iff its rule matches and no earlier one does: an `image/` prefix, then `pdf`, then `word` or `document`, then `excel` or `spreadsheet`, then `video`, then `audio`, else the generic icon |
| FileDisplay.IconPriority | src/components/FileUpload.tsx:251-252 | `image/pdf` shows the image icon; `application/pdf` shows the pdf icon |
| FileDisplay.Tenths | src/components/FileUpload.tsx:262-263 | `toFixed(1)` of `bytes / unit`: the nearest tenth, with halves rounded up |
| FileDisplay.FormatFileSize | src/components/FileUpload.tsx:260-264 | below 1024 the byte count with ` B`; below 1024² the kilobytes to one decimal with ` KB`; otherwise the megabytes to one decimal with ` MB` |
| FileDisplay.ShownSizeBounds | src/components/FileUpload.tsx:262-263 | a kilobyte figure ranges from 1.0 to 1024.0, and a megabyte figure is at least 1.0 |
| FileDisplay.KilobyteTextReaches1024 | src/components/FileUpload.tsx:262 | 1048575 bytes print as `1024.0 KB`, since the unit switches before the rounding |
| FileUpload.CanvasSize | src/components/FileUpload.tsx:86-98 | when an edge exceeds 2000, the larger edge (the height on a tie) becomes 2000 and the proportion is kept; otherwise the size is unchanged; neither edge ends above 2000 |
| FileUpload.ScaledEdge | src/components/FileUpload.tsx:92-95 | the shorter edge scaled by `2000 / long` stays within 2000 and keeps the ratio |
| FileUpload.LastDot | src/components/FileUpload.tsx:110 | the position of the last `.` of a name, if any |
| FileUpload.JpgName | src/components/FileUpload.tsx:110 | `replace(/\.[^.]+$/, '.jpg')`: a final `.` followed by at least one character becomes `.jpg`; any other name is unchanged |
| FileUpload.JpgNameIdempotent | src/components/FileUpload.tsx:110 | renaming a renamed file changes nothing |
| FileUpload.FirstAccepted | src/components/FileUpload.tsx:105-124 | the first attempt whose blob exists and is small enough, or is at the quality floor; attempts before it are not accepted; unsettled when no attempt within the limit is accepted |
| FileUpload.QualityLoop | src/components/FileUpload.tsx:105-124 | the retry loop as written returns the first accepted attempt, and a result above the target comes only from the quality floor |
| FileUpload.BlobsSettleByTenthAttempt | src/components/FileUpload.tsx:109-116 | when every blob is produced, the loop settles by the tenth attempt at the latest |
| FileUpload.NullBlobsNeverSettle | src/components/FileUpload.tsx:107-118 | as written, a canvas that returns no blob is retried for ever: no number of attempts settles |
| FileUpload.FirstSettled | src/components/FileUpload.tsx:105-124 | with the retry stopping at a missing blob or at the floor, the loop always settles within ten attempts, on an accepted blob or a missing one |
| FileUpload.SettlingQualityLoop | src/components/FileUpload.tsx:105-124 | the corrected retry loop returns the settled attempt |
| FileUpload.SettlingAgrees | src/components/FileUpload.tsx:105-124 | whenever the loop as written settles with every blob produced, the corrected loop gives the same attempt |
| FileUpload.CompressCanvas | src/components/FileUpload.tsx:75-134 | corrected: as written, a missing blob makes the `toBlob` callback retry without end (Findings row 2); the corrected member stops there. A non-image or a file within 5000 KiB is returned as it is; a failed image load or a missing blob returns the original; otherwise the file is the settled blob, as an `image/jpeg` renamed to `.jpg` with that blob's size, which stays above the target only at the floor attempt |
| FileUpload.CompressAdvanced | src/components/FileUpload.tsx:37-72 | a non-image or a small file is returned as it is; a library success gives its output as `image/jpeg`; a library exception falls back to the canvas |
| FileUpload.PrepareFile | src/components/FileUpload.tsx:152-173 | a file above 25 MiB is skipped with its note; a non-image, or an image whose compression throws, is appended as it is; any other image is appended as `compressImageAdvanced` returns it |
| FileUpload.Steps | src/components/FileUpload.tsx:149 | one step per chosen file, in order |
| FileUpload.StepsPartition | src/components/FileUpload.tsx:149-175 | every file is either appended or skipped |
| FileUpload.NothingSkipped | src/components/FileUpload.tsx:153-156 | with every file within 25 MiB nothing is skipped and every file is appended |
| FileUpload.Prepare | src/components/FileUpload.tsx:143-175 | the loop's appended files and skip notes are those of the steps, in order, and the progress counter counts the appended files |
| FileUpload.ErrorText | src/components/FileUpload.tsx:197 | `data.error \|\| data.details \|\| default`: never empty, and the error when there is one |
| FileUpload.Notice | src/components/FileUpload.tsx:206-217 | an alert is shown iff files were skipped or the server reported partial errors |
| FileUpload.Conclude | src/components/FileUpload.tsx:177-223 | no appended file gives the no-files error before any request; files are delivered iff the answer is ok, successful and lists files; an answer that is not ok gives its error text; a thrown fetch gives its message |
| FileUpload.HandleUpload | src/components/FileUpload.tsx:136-231 | an empty selection does nothing; otherwise the outcome of the request for the appended files |
| FileUpload.FormSeesServer | src/components/FileUpload.tsx:195-204 | against the upload route, the form delivers exactly the stored files, with notes for the skipped files and the partial errors, and reports the route's error when nothing was stored (also src/app/api/upload/route.ts:346-366) |
| BulkImport.FindHoliday | src/components/BulkImportModal.tsx:240 | the first holiday with the date: it is in the table and no earlier preset has that date; None when no preset has it |
| BulkImport.Without | src/components/BulkImportModal.tsx:197 | the id is gone and every other id is kept |
| BulkImport.Toggle | src/components/BulkImportModal.tsx:194-200 | a selected month is removed and an unselected one appended; the id's membership flips and no other id's changes |
| BulkImport.WithoutAbsent | src/components/BulkImportModal.tsx:197 | removing an id not in the list changes nothing |
| BulkImport.WithoutAppended | src/components/BulkImportModal.tsx:197-198 | removing an id that was just appended is the same as removing it before the append |
| BulkImport.ToggleTwice | src/components/BulkImportModal.tsx:194-200 | toggling an unselected month twice restores the selection |
| BulkImport.Detail | src/components/BulkImportModal.tsx:235-254 | a found holiday whose name is non-empty, or any found holiday when generating, gives its name (with ` (source)` when generating); no holiday, or an empty name when not generating, falls to the weekend label when weekends are included and to '' otherwise (also src/components/BulkImportModal.tsx:339-356) |
| BulkImport.LabelRule | src/components/BulkImportModal.tsx:238-258 | a day is planned iff a holiday was found (and gives a non-empty label) or weekends are marked and it is a Sunday or a Saturday (also src/components/BulkImportModal.tsx:341-360) |
| BulkImport.PlanProperties | src/components/BulkImportModal.tsx:233-258 | no planned day already exists, every planned day has a detail, and planned plus skipped days are no more than the dates scanned (also src/components/BulkImportModal.tsx:334-360) |
| BulkImport.SkipCountCountsRecorded | src/components/BulkImportModal.tsx:328-337 | the skip counter is the number of scanned dates whose Day already exists: the length of the sub-list of exactly those dates (also src/components/BulkImportModal.tsx:210-212) |
| BulkImport.NothingRecordedNothingSkipped | src/components/BulkImportModal.tsx:210-212 | with no recorded days no date is recorded, so nothing is skipped |
| BulkImport.FindMonthById | src/components/BulkImportModal.tsx:221 | the first month with the id: no earlier month has it; None when there is none (also src/components/BulkImportModal.tsx:322) |
| BulkImport.MonthCandidates | src/components/BulkImportModal.tsx:224-231 | a month whose value does not parse gives no dates; otherwise one date per day of that month |
| BulkImport.Visit | src/components/BulkImportModal.tsx:233-258 | an existing day is skipped and counted once; otherwise the date is planned iff it gets a detail (also src/components/BulkImportModal.tsx:334-360) |
| BulkImport.ScanMonth | src/components/BulkImportModal.tsx:224-261 | the days planned and skipped for one month are those of the month's dates, day 1 to the last day (also src/components/BulkImportModal.tsx:325-362) |
| BulkImport.ScanMonths | src/components/BulkImportModal.tsx:219-223 | the plan and skip count over the selected months, in selection order, months not found being passed over (also src/components/BulkImportModal.tsx:320-324) |
| BulkImport.FindMonthByValue | src/components/BulkImportModal.tsx:274 | the first month with the `YYYY-MM` value: no earlier month has it; None when there is none (also src/components/BulkImportModal.tsx:381) |
| BulkImport.MonthValue | src/components/BulkImportModal.tsx:272-273 | the month value is the date string without its day (also src/components/BulkImportModal.tsx:379-380) |
| BulkImport.RangeCandidateFiled | src/components/BulkImportModal.tsx:272-276 | a date of a range gives at most one candidate, filed under a month whose value prefixes the date |
| BulkImport.RangeFromFiled | src/components/BulkImportModal.tsx:267-276 | every date a range scan plans is filed under a month of the year (also src/components/BulkImportModal.tsx:374-383) |
| BulkImport.EmptyRange | src/components/BulkImportModal.tsx:267 | an end date before the start scans nothing (also src/components/BulkImportModal.tsx:374) |
| BulkImport.VisitDate | src/components/BulkImportModal.tsx:268-302 | one date of a range extends the plan and the skip count by that date's candidate, or leaves them when no month holds it (also src/components/BulkImportModal.tsx:375-412) |
| BulkImport.ScanRange | src/components/BulkImportModal.tsx:264-303 | the plan and skip count over the dates from start to end inclusive (also src/components/BulkImportModal.tsx:371-413) |
| BulkImport.PreviewItems | src/components/BulkImportModal.tsx:257 | one preview row per planned day, with its date, detail and source (also src/components/BulkImportModal.tsx:301) |
| BulkImport.YearlyScansNothing | src/components/BulkImportModal.tsx:11 | the yearly type scans no date (also src/components/BulkImportModal.tsx:219, src/components/BulkImportModal.tsx:261, src/components/BulkImportModal.tsx:320, src/components/BulkImportModal.tsx:363) |
| BulkImport.Scan | src/components/BulkImportModal.tsx:219-304 | the plan and skip count over the dates of the chosen type (also src/components/BulkImportModal.tsx:320-414) |
| BulkImport.HandlePreview | src/components/BulkImportModal.tsx:216-307 | the preview is kept iff a range type misses a date; otherwise it lists the planned days |
| BulkImport.Keys | src/components/BulkImportModal.tsx:257 | one month-and-date pair per planned day (also src/components/BulkImportModal.tsx:359) |
| BulkImport.PreviewListsGeneratedDays | src/components/BulkImportModal.tsx:242 | with named holidays, the preview lists exactly the days generation creates, in the same order (also src/components/BulkImportModal.tsx:345) |
| BulkImport.CountOk | src/components/BulkImportModal.tsx:429-433 | the successes among the first n requests are at most n |
| BulkImport.PostEachDay | src/components/BulkImportModal.tsx:417-440 | as written: successes and failures add up to the planned days, each request whose table clear works counts as a success, and after such a last request the Days table is empty (also src/app/api/days/route.ts:48-84) |
| BulkImport.BulkCreateWipesTable | src/components/BulkImportModal.tsx:419-427 | importing one day into any table reports one success and leaves the table empty |
| BulkImport.UpsertFresh | src/app/api/days/route.ts:97-115 | saving a day whose id is not in the table appends its row |
| BulkImport.StillAbsent | src/components/BulkImportModal.tsx:417-440 | with distinct fresh ids, the later ids stay absent after a request |
| BulkImport.UpsertEachDay | src/components/BulkImportModal.tsx:417-440 | corrected: successes and failures add up; with fresh ids, the saved days are appended after the existing rows in request order |
| BulkImport.UpsertStep | src/components/BulkImportModal.tsx:418-439 | one corrected request is saved iff it does not fail, appending its day while the ids stay fresh |
| BulkImport.FreshStep | src/components/BulkImportModal.tsx:418-439 | the table after one corrected request of a fresh day |
| BulkImport.DayRowsAppend | src/app/api/days/route.ts:60-66 | the rows of two lists of days are the rows of each, in order |
| BulkImport.GenerateDays | src/components/BulkImportModal.tsx:309-442 | no result (and no change) iff a range type misses a date; otherwise successes and failures add up to the planned days, skipped counts the existing days, and with fresh ids the created days follow the existing rows |
| Calendar.DaysInMonth | src/components/QuickCalendar.tsx:29-32 | `new Date(y, m, 0).getDate()`: 28 to 31 days, February having 29 exactly in leap years (also src/components/CalendarTable.tsx:23-26, src/components/BulkImportModal.tsx:225) |
| Calendar.Weekday | src/components/QuickCalendar.tsx:34-37 | `getDay()` of a valid date is 0 (Sunday) to 6 (also src/components/BulkImportModal.tsx:229-230) |
| Calendar.WeekdayAnchors | src/components/QuickCalendar.tsx:34-37 | the weekday function agrees with the civil calendar on known dates |
| Calendar.NextDate | src/components/BulkImportModal.tsx:267 | `d.setDate(d.getDate() + 1)` gives a valid date |
| Calendar.NextDateStep | src/components/BulkImportModal.tsx:267-269 | the next date is one day later and one weekday later |
| Calendar.ParseIsoDate | src/components/BulkImportModal.tsx:264-265 | a parsed `YYYY-MM-DD` date is a valid date |
| Calendar.WeekdayOf | src/app/page.tsx:54-55 | `new Date(s).getDay()`: a weekday 0 to 6, None for a date that does not parse (NaN) (also src/components/CalendarTable.tsx:74, src/components/QuickCalendar.tsx:93) |
| Calendar.ParseYearMonth | src/components/QuickCalendar.tsx:30-31 | a parsed `YYYY-MM` value has a month 1 to 12 (also src/components/BulkImportModal.tsx:224-225) |
| Calendar.ParseDateParts | src/app/page.tsx:40 | `split('-')` and `parseInt` of a date string: a month 1 to 12 (also src/components/DayDetailModal.tsx:43) |
| Calendar.IsoRoundTrip | src/components/BulkImportModal.tsx:268 | parsing the written date of any valid four-digit-year date gives the date back (also src/components/BulkImportModal.tsx:228) |
| CellCodec.EncodeEntries | src/app/api/days/route.ts:64 | the entries cell is never empty, so it is always decoded |
| CellCodec.EncodeAttachments | src/app/api/days/route.ts:65 | the attachments cell is never empty |
| CellCodec.EntriesRoundTrip | src/app/api/days/route.ts:25 | decoding the entries cell written for any list of entries gives the list back (also src/app/api/days/route.ts:64) |
| CellCodec.AttachmentsRoundTrip | src/app/api/days/route.ts:26 | decoding the attachments cell written for any list of attachments gives the list back (also src/app/api/days/route.ts:65) |
| ThaiDates.MonthTablesGood | src/app/page.tsx:42-45 | both month-name tables have twelve distinct names without spaces (also src/components/Marquee.tsx:26-29) |
| ThaiDates.DateLabel | src/app/page.tsx:38-47 | a label exists iff the date's parts parse, and it is the day without a leading zero, the month's name and the year plus 543 (also src/components/DayDetailModal.tsx:42-50, src/components/Marquee.tsx:24-30, src/components/LandingPage.tsx:68-77) |
| ThaiDates.LabelInjective | src/components/DayDetailModal.tsx:42-50 | two dates with the same label are the same date |
| ThaiDates.MonthLabelInjective | src/app/api/months/route.ts:31-34 | two months with the same generated name are the same month |
| ThaiDates.PartsOfIso | src/app/page.tsx:40 | the parts of any written date are that date |
| ThaiDates.LabelDayHasNoLeadingZero | src/app/page.tsx:46 | `parseInt(day)` prints no leading zero |
| Views.MonthsOfYear | src/components/QuickCalendar.tsx:21 | the months of the selected year: exactly the months with that year id, in their order: the sub-list `Filter` keeps |
| Views.MonthDays | src/components/QuickCalendar.tsx:79 | the days of a month: exactly the days with that month id, in their order: the sub-list `Filter` keeps |
| Views.YearCountBound | src/components/QuickCalendar.tsx:76-104 | a count over the year's months never exceeds the recorded days of those months |
| Views.FindDay | src/components/QuickCalendar.tsx:23-27 | the first day of the month filed under the date, or None when there is none (also src/components/CalendarTable.tsx:17-21) |
| Views.WeekendTitles | src/components/QuickCalendar.tsx:12-15 | the weekday titles of Sunday and Saturday are the weekend labels the import writes (also src/components/CalendarTable.tsx:166-169) |
| Views.Cell | src/components/QuickCalendar.tsx:157-169 | a cell exists iff the month parses and the day number is a date of that month; its date is the padded date, its record the first matching day, its weekday the weekday of that date (also src/components/CalendarTable.tsx:115-126) |
| Views.CellTitle | src/components/QuickCalendar.tsx:198 | a cell's title is the first entry's detail when non-empty, otherwise the weekday title (also src/components/CalendarTable.tsx:134) |
| DayRules.FirstDetail | src/components/QuickCalendar.tsx:40-41 | there is a first detail iff the day exists and has entries, and it is the first entry's |
| DayRules.HasActivity | src/components/QuickCalendar.tsx:39-45 | an activity iff the day exists, has entries, and its first detail holds no weekend label (also src/components/DayDetailModal.tsx:52-57) |
| DayRules.IsActivityDay | src/components/ActivitiesDetail.tsx:61-66 | a real activity iff the day has entries and its first detail holds no weekend label |
| DayRules.IsHoliday | src/components/QuickCalendar.tsx:47-51 | a holiday iff the day exists, has entries, and its first detail holds one of the keys (also src/components/DayDetailModal.tsx:59-63) |
| DayRules.FirstEntryDecides | src/components/QuickCalendar.tsx:39-51 | activity and holiday depend only on the first entry's detail |
| DayRules.ContainsAnyPrefix | src/components/CalendarTable.tsx:44 | a detail with a key holds a key of any longer key list |
| DayRules.ShortHolidayIsHoliday | src/components/QuickCalendar.tsx:50 | a holiday of the quick calendar is a holiday of the table (also src/components/CalendarTable.tsx:44) |
| DayRules.WeekendLabelNotActivity | src/components/QuickCalendar.tsx:43 | a day whose first entry is a weekend label is no activity |
| DayRules.CellStyleOf | src/components/QuickCalendar.tsx:53-74 | holiday first, then activity, then Sunday, Saturday, working day, each colour iff its condition (also src/components/CalendarTable.tsx:47-68) |
| DayRules.UnrecordedCellIsWeekdayColour | src/components/QuickCalendar.tsx:64-73 | a date with no record is coloured by its weekday alone |
| QuickCalendar.ExclusionsSplit | src/components/QuickCalendar.tsx:97 | the working-day exclusions are the weekend labels and the holiday keys |
| QuickCalendar.WorkingWithEntriesIsActivityCell | src/components/QuickCalendar.tsx:96-98 | a recorded day with entries counts as working iff its cell shows an activity (also src/components/QuickCalendar.tsx:53-62) |
| QuickCalendar.WorkingWithoutEntriesIsWorkingCell | src/components/QuickCalendar.tsx:92-94 | a recorded day without entries counts as working iff its cell shows a working day (also src/components/QuickCalendar.tsx:65-73) |
| QuickCalendar.CountMonth | src/components/QuickCalendar.tsx:80-82 | the count over one month's days adds the days that satisfy the rule |
| QuickCalendar.CountYear | src/components/QuickCalendar.tsx:76-85 | the count over the year's months is the year count of the rule |
| QuickCalendar.ActivityCount | src/components/QuickCalendar.tsx:76-85 | the activity count is the year's activity days, at most its recorded days |
| QuickCalendar.WorkingDaysCount | src/components/QuickCalendar.tsx:87-104 | the working-day count is the year's working days, at most its recorded days |
| QuickCalendar.DaysInMonthOf | src/components/QuickCalendar.tsx:29-32 | a month value that parses has 28 to 31 days |
| QuickCalendar.Placeholder | src/components/QuickCalendar.tsx:180-187 | the placeholder for an empty date: id `temp-` and the date, the row's month, no entries, no attachments |
| QuickCalendar.QuickCell | src/components/QuickCalendar.tsx:157-169 | a cell is drawn iff the date exists; its colour is the cell style of its record and weekday with the two short holiday keys, its title that record's title, and it has a badge iff the record has files or an activity (also src/components/QuickCalendar.tsx:165-205) |
| QuickCalendar.CellIffDayOfMonth | src/components/QuickCalendar.tsx:157-163 | only day numbers up to the month's length are drawn, and all of them are |
| QuickCalendar.ClickedDay | src/components/QuickCalendar.tsx:172-191 | a click passes the cell's record or a placeholder, dated to the cell and filed under the row's month |
| QuickCalendar.PlaceholderLooksUnrecorded | src/components/QuickCalendar.tsx:165-187 | the placeholder is coloured, titled and badged like an unrecorded date |
| CalendarTable.WorkingDaysOfMonth | src/components/CalendarTable.tsx:70-85 | the month's count is the number of its days that are Monday to Friday and no holiday |
| CalendarTable.ReduceIsYearCount | src/components/CalendarTable.tsx:157 | the reduce adds the month counts to the initial sum |
| CalendarTable.GrandTotalIsSumOfRows | src/components/CalendarTable.tsx:157 | the total row is the sum of the month rows and at most the recorded days (also src/components/CalendarTable.tsx:108) |
| CalendarTable.CountedIffWeekdayNotHolidayCell | src/components/CalendarTable.tsx:73-82 | a day counts iff it is Monday to Friday and its cell is an activity or working-day cell (also src/components/CalendarTable.tsx:47-68) |
| CalendarTable.WeekendLabelOnWeekdayCounts | src/components/CalendarTable.tsx:74-82 | a weekday labelled Saturday counts as working though it is no activity (also src/components/CalendarTable.tsx:33-39) |
| CalendarTable.TableCell | src/components/CalendarTable.tsx:115-134 | a cell is drawn iff the date exists; a click passes its record, which is a day of the month on that date; its colour is the cell style with the full holiday key list, its title the record's title, with a files dot iff the record has files and an activity badge iff it has an activity (also src/components/CalendarTable.tsx:135-143) |
| DayDetailModal.DayTypeOf | src/components/DayDetailModal.tsx:59-65 | holiday iff the first entry has a holiday key; otherwise weekend iff Saturday or Sunday; otherwise working |
| DayDetailModal.DayTypeText | src/components/DayDetailModal.tsx:211 | each day type has its own text: `วันหยุดราชการ`, `วันหยุดสุดสัปดาห์` or `วันทำงาน` |
| DayDetailModal.FormatDate | src/components/DayDetailModal.tsx:42-50 | a label iff the date's parts parse, and it is the full-month label with the `พ.ศ.` marker |
| DayDetailModal.EditPressed | src/components/DayDetailModal.tsx:224-229 | the edit button calls the close handler and then, last, the edit handler |
| DayDetailModal.FormatWrittenDate | src/components/DayDetailModal.tsx:42-50 | a written date shows as day, full month name, `พ.ศ. ` and the year plus 543 |
| DayDetailModal.DifferentDatesDifferentLabels | src/components/DayDetailModal.tsx:42-50 | different dates show different labels |
| DayDetailModal.Render | src/components/DayDetailModal.tsx:40-66 | the dialog shows iff open with a day and a month; the edit button iff an administrator with an edit handler (also src/components/DayDetailModal.tsx:108-110, src/components/DayDetailModal.tsx:224-229) |
| DayDetailModal.HolidayAgreesWithCell | src/components/DayDetailModal.tsx:59-63 | the dialog calls a day a holiday exactly when the quick calendar paints it as one (also src/components/QuickCalendar.tsx:47-57) |
| DayDetailModal.WeekendOutranksActivity | src/components/DayDetailModal.tsx:65 | a non-holiday Saturday or Sunday is a weekend day even with an activity |
| Marquee.TypeOf | src/components/Marquee.tsx:32-38 | holiday iff a holiday key; otherwise special iff a special key; otherwise activity |
| Marquee.DateText | src/components/Marquee.tsx:24-30 | a date text iff the date's parts parse, and it is the short-month label with no era marker |
| Marquee.IconOf | src/components/Marquee.tsx:61-70 | a holiday shows the beach, a special item the star, and anything else the pin |
| Marquee.ItemOf | src/components/Marquee.tsx:22-47 | a day gives an item iff it is an activity day, with the first entry's detail and the short date label |
| Marquee.PushMonth | src/components/Marquee.tsx:21-49 | one month's loop appends that month's items |
| Marquee.PushYear | src/components/Marquee.tsx:19-50 | the loop over the year's months gives all their items in month order |
| Marquee.MarqueeItems | src/components/Marquee.tsx:15-53 | the first 20 items of the selected year |
| Marquee.DayItemsCount | src/components/Marquee.tsx:21-47 | a month gives one item per activity day |
| Marquee.AllItemsCount | src/components/Marquee.tsx:19-50 | the year gives one item per activity day of its months |
| Marquee.ShownItemsAreActivities | src/components/Marquee.tsx:52 | the line shows the year's activity days, at most 20 |
| Marquee.DayItemsWellTyped | src/components/Marquee.tsx:32-47 | a month's items carry no weekend label and are typed by their text |
| Marquee.AllItemsWellTyped | src/components/Marquee.tsx:19-50 | every item of the year carries no weekend label and is typed by its text |
| Marquee.View | src/components/Marquee.tsx:57-59 | nothing shows for no items; otherwise the items twice, each text cut at 50 characters with `...` (also src/components/Marquee.tsx:87, src/components/Marquee.tsx:95) |
| LandingPage.YearDays | src/components/LandingPage.tsx:18-19 | exactly the days filed under a month of the selected year, in their stored order |
| LandingPage.YearDaysAppend | src/components/LandingPage.tsx:19 | the year's days of two lists joined are the year's days of each, joined: the filter keeps order |
| LandingPage.FirstActivityEntry | src/components/LandingPage.tsx:56-60 | the first entry with a non-weekend detail, or None when there is none |
| LandingPage.RecentActivities | src/components/LandingPage.tsx:47-66 | the items are the first five (or fewer) days that have a recent entry, in order, each shown by its date and its first non-weekend entry; every detail shown is non-empty and has no weekend label |
| LandingPage.TotalActivities | src/components/LandingPage.tsx:21-27 | the number of the year's days counted as activities, at most the number of days, and zero iff none is |
| LandingPage.TotalHolidays | src/components/LandingPage.tsx:29-42 | the number of the year's days with a holiday keyword, at most the number of days, and zero iff none has one |
| LandingPage.RecentWithinActivities | src/components/LandingPage.tsx:21-27 | the recent list is no longer than the activity total (also src/components/LandingPage.tsx:47-54) |
| LandingPage.TableHolidayIsCounted | src/components/LandingPage.tsx:29-42 | a day the table paints as a holiday counts in the holiday total (also src/components/CalendarTable.tsx:41-45) |
| LandingPage.FormatDates | src/components/LandingPage.tsx:68-77 | no date gives ''; a written date gives day, short month name and the year plus 543 |
| LandingPage.ShownDetail | src/components/LandingPage.tsx:189-191 | a detail longer than 40 characters is cut to its first 40 characters followed by `...`; a shorter one is shown whole |
| Editing.Toggled | src/components/SidePanel.tsx:33-41 | the month's membership flips and no other month's changes (also src/components/ActivitiesDetail.tsx:31-39) |
| Editing.ToggleTwice | src/components/SidePanel.tsx:33-41 | toggling a month twice restores the set |
| Editing.MonthIds | src/components/SidePanel.tsx:43-45 | exactly the ids of the year's months |
| Editing.SortedMonthDays | src/components/SidePanel.tsx:51-53 | a permutation of the month's days, ordered by date (also src/components/ActivitiesDetail.tsx:41-43) |
| Editing.WithFieldOnly | src/components/SidePanel.tsx:93 | `{ ...entry, [field]: value }` sets that field, keeps the others, and writing a field's own value changes nothing |
| Editing.UpdatedAt | src/components/SidePanel.tsx:91-95 | the entry at the index has the field set; every other entry is kept (also src/components/DayEditModal.tsx:35-39) |
| Editing.UpdateUndone | src/components/SidePanel.tsx:91-95 | writing back a field's old value restores the entries |
| Editing.RemovedAt | src/components/SidePanel.tsx:97-99 | the entry at the index is dropped and the rest keep their order; an index past the end changes nothing (also src/components/DayEditModal.tsx:41-43) |
| Editing.RemoveAdded | src/components/SidePanel.tsx:87-99 | removing the entry just added restores the entries |
| Editing.FilledIffVisible | src/components/SidePanel.tsx:104 | `detail.trim() !== ''` iff the detail has a non-space character |
| Editing.SavedEntries | src/components/SidePanel.tsx:104 | exactly the filled entries, as a sub-list |
| Editing.SavedEntriesAppend | src/components/SidePanel.tsx:104 | filtering distributes over appending |
| Editing.SavedAllFilled | src/components/SidePanel.tsx:104 | filled entries are all kept |
| Editing.SavedIdempotent | src/components/SidePanel.tsx:104 | filtering twice is filtering once |
| Editing.BlankNotSaved | src/components/SidePanel.tsx:87-104 | an added blank entry is not saved |
| Editing.MonthEditor.constructor | src/components/SidePanel.tsx:25-27 | no month expanded, no day in edit, no working entries |
| Editing.MonthEditor.ToggleMonth | src/components/SidePanel.tsx:33-41 | the expanded set is toggled at the month; the edit state is kept |
| Editing.MonthEditor.ExpandAll | src/components/SidePanel.tsx:43-45 | every month of the year is expanded |
| Editing.MonthEditor.CollapseAll | src/components/SidePanel.tsx:47-49 | no month is expanded |
| Editing.MonthEditor.StartEditing | src/components/SidePanel.tsx:77-80 | the day is in edit with a copy of its entries, or one blank entry when it has none (also src/components/ActivitiesDetail.tsx:72-75) |
| Editing.MonthEditor.CancelEditing | src/components/SidePanel.tsx:82-85 | no day in edit and no working entries |
| Editing.MonthEditor.AddEntry | src/components/SidePanel.tsx:87-89 | one blank entry appended |
| Editing.MonthEditor.UpdateEntry | src/components/SidePanel.tsx:91-95 | the working entries updated at the index |
| Editing.MonthEditor.RemoveEntry | src/components/SidePanel.tsx:97-99 | the working entries without the one at the index |
| Editing.MonthEditor.SaveChanges | src/components/SidePanel.tsx:101-126 | the day is sent with its filled entries; an ok answer refreshes the data, whose loading screen (src/app/page.tsx:71-82) remounts the panel with no month expanded and nothing in edit; any other answer changes nothing (also src/components/ActivitiesDetail.tsx:96-121) |
| Editing.SavedDayShape | src/components/SidePanel.tsx:104-108 | the day sent keeps its id, month, date and attachments, and carries only filled entries of the working copy |
| SidePanel.EntryTexts | src/components/SidePanel.tsx:157 | one `detail + ' ' + responsible` per entry |
| SidePanel.FilterDays | src/components/SidePanel.tsx:154-160 | a blank query keeps every day; otherwise exactly the days whose entry text contains the query, ignoring case, in their order |
| SidePanel.FilterDaysAppend | src/components/SidePanel.tsx:154-160 | filtering two lists joined is filtering each and joining: the filter keeps order |
| SidePanel.Matches | src/components/SidePanel.tsx:157-158 | an empty (lower-cased) query matches every day; a day with no entry text matches only the empty query |
| SidePanel.JoinStartsWithHead | src/components/SidePanel.tsx:157 | the joined text starts with the first entry's text |
| SidePanel.ToLowerKeepsPrefix | src/components/SidePanel.tsx:158 | lower-casing keeps a prefix a prefix |
| SidePanel.FirstDetailFindsDay | src/components/SidePanel.tsx:154-160 | searching for a day's first detail finds the day |
| SidePanel.NoEntriesNoMatch | src/components/SidePanel.tsx:157-158 | a day without entries matches no non-blank query |
| SidePanel.DeleteRequest | src/components/SidePanel.tsx:128-142 | nothing is sent unless confirmed; a confirmed delete sends the day with no entries and everything else kept |
| SidePanel.TallyMonth | src/components/SidePanel.tsx:167-170 | one month adds its days to the total and its activity days to the activities |
| SidePanel.AddMonth | src/components/SidePanel.tsx:165-170 | the tally of the month's days |
| SidePanel.TallyYear | src/components/SidePanel.tsx:162-173 | the totals over the given months |
| SidePanel.ActivityStats | src/components/SidePanel.tsx:162-173 | the selected year's recorded days and activity days, the latter never more |
| ActivitiesDetail.ActivityCount | src/components/ActivitiesDetail.tsx:68-70 | the number of activity days, at most the days given |
| ActivitiesDetail.BadgeCountsMonthActivities | src/components/ActivitiesDetail.tsx:126-140 | the month badge counts the month's activity days, sorted or not |
| ActivitiesDetail.Row | src/components/ActivitiesDetail.tsx:163-170 | a row is a weekend row iff Saturday or Sunday, an activity row iff an activity day, in edit iff an administrator edits it |
| DayEditModal.WithoutAttachment | src/components/DayEditModal.tsx:56 | exactly the attachments with another id |
| DayEditModal.RemoveAbsentId | src/components/DayEditModal.tsx:56 | removing an id no attachment has changes nothing |
| DayEditModal.RemoveTwice | src/components/DayEditModal.tsx:56 | removing the same id twice is removing it once |
| DayEditModal.RemoveFromUpload | src/components/DayEditModal.tsx:45-56 | removing from an extended list removes from each part |
| DayEditModal.DayEditor.constructor | src/components/DayEditModal.tsx:17-18 | the working copy is the day's entries and attachments, or empty without a day |
| DayEditModal.DayEditor.Load | src/components/DayEditModal.tsx:21-26 | a new day reloads the copy; no day keeps it |
| DayEditModal.DayEditor.AddEntry | src/components/DayEditModal.tsx:28-33 | one blank entry appended |
| DayEditModal.DayEditor.UpdateEntry | src/components/DayEditModal.tsx:35-39 | the entries updated at the index |
| DayEditModal.DayEditor.RemoveEntry | src/components/DayEditModal.tsx:41-43 | the entries without the one at the index |
| DayEditModal.DayEditor.FilesUploaded | src/components/DayEditModal.tsx:45-47 | the uploaded files after the existing ones |
| DayEditModal.DayEditor.RemoveAttachment | src/components/DayEditModal.tsx:49-60 | the attachment is removed when the delete call returns; a thrown error keeps the list |
| DayEditModal.DayEditor.Save | src/components/DayEditModal.tsx:62-88 | nothing without a day; otherwise the day with the working entries and attachments is sent, closing only on an ok answer |
| AttachmentGallery.Next | src/components/AttachmentGallery.tsx:35-37 | the next index, wrapping to 0 after the last |
| AttachmentGallery.Prev | src/components/AttachmentGallery.tsx:39-41 | the previous index, wrapping to the last from 0 |
| AttachmentGallery.ArrowsAreInverse | src/components/AttachmentGallery.tsx:35-41 | the two arrows undo each other |
| AttachmentGallery.NextTimesAdd | src/components/AttachmentGallery.tsx:35-37 | pressing ▶ a then b times is pressing it a + b times |
| AttachmentGallery.NextTimesForward | src/components/AttachmentGallery.tsx:35-37 | ▶ pressed j - i times moves from i to a later j |
| AttachmentGallery.EveryAttachmentReachable | src/components/AttachmentGallery.tsx:35-37 | from any attachment, fewer than n presses of ▶ reach any other (also src/components/AttachmentGallery.tsx:105) |
| AttachmentGallery.ThumbnailSource | src/components/AttachmentGallery.tsx:137 | images show `thumbnailUrl \|\| url`; other files show an icon |
| AttachmentGallery.IconForOtherFiles | src/components/AttachmentGallery.tsx:17-25 | a file shown by its icon never gets the image icon (also src/components/AttachmentGallery.tsx:137) |
| AttachmentGallery.Gallery.Current | src/components/AttachmentGallery.tsx:33 | the selected attachment, or none when the index is past the end |
| AttachmentGallery.Gallery.constructor | src/components/AttachmentGallery.tsx:13 | no attachments, closed, index 0 (also src/app/page.tsx:31-32) |
| AttachmentGallery.Gallery.OpenAsWritten | src/app/page.tsx:66-69 | as written: the list and the open flag change, the index does not |
| AttachmentGallery.Gallery.Open | src/app/page.tsx:66-69 | corrected: the gallery opens at the first attachment of the new list |
| AttachmentGallery.Gallery.Close | src/app/page.tsx:387 | only the open flag changes |
| AttachmentGallery.Gallery.GoNext | src/components/AttachmentGallery.tsx:35-37 | the index moves to `Next`, always in range (also src/components/AttachmentGallery.tsx:105) |
| AttachmentGallery.Gallery.GoPrev | src/components/AttachmentGallery.tsx:39-41 | the index moves to `Prev`, always in range (also src/components/AttachmentGallery.tsx:105) |
| AttachmentGallery.Gallery.Select | src/components/AttachmentGallery.tsx:129 | a thumbnail click selects its attachment |
| AttachmentGallery.StaleIndexAsWritten | src/app/page.tsx:66-69 | as written, after the third of three files, a one-file gallery opens with no current attachment (also src/components/AttachmentGallery.tsx:13, src/components/AttachmentGallery.tsx:33, src/components/AttachmentGallery.tsx:83) |
| AttachmentGallery.SameStepsCorrected | src/app/page.tsx:66-69 | with the reset, the same steps show the one file |
| AppContext.ListOf | src/lib/context.tsx:70-72 | an array body is kept; anything else gives `[]` |
| AppContext.FirstCurrent | src/lib/context.tsx:80 | the first current year, or None when no year is current |
| AppContext.ChosenYear | src/lib/context.tsx:79-82 | a selection is kept; with none and some years, some year's id is chosen |
| AppContext.CurrentYearChosen | src/lib/context.tsx:80-81 | with none selected, the first current year with an id wins |
| AppContext.FirstYearOtherwise | src/lib/context.tsx:81 | with none selected and no current year, the first year wins |
| AppContext.AppState.constructor | src/lib/context.tsx:34-45 | blank settings, empty lists, nothing selected, loading, signed out |
| AppContext.AppState.Refresh | src/lib/context.tsx:47-92 | the lists are the array bodies, the selection is chosen, settings change only for a settings body; a thrown call empties the lists; loading ends |
| AppContext.AppState.Login | src/lib/context.tsx:94-113 | success iff the route signs the user in, which sets the user and the admin flag; otherwise nothing changes |
| AppContext.AppState.Logout | src/lib/context.tsx:115-118 | no user and not an administrator |
| AppContext.AppState.SelectYear | src/app/page.tsx:115 | the selected year is the chosen one; nothing else changes |
| HomePage.FormatDate | src/app/page.tsx:38-47 | '' for no date; otherwise the full-month label with no era marker |
| HomePage.FormatDates | src/app/page.tsx:38-47 | a written date shows as day, full month name and the year plus 543 |
| HomePage.SelectedYearData | src/app/page.tsx:36 | the first year with the selected id, or None when there is none |
| HomePage.YearRange | src/app/page.tsx:36 | the selected year's formatted start and end dates, blank without one (also src/app/page.tsx:222) |
| HomePage.ClickedWeekday | src/app/page.tsx:53-55 | clicking a written date records its weekday |
| HomePage.Page.constructor | src/app/page.tsx:26-32 | nothing selected, weekday 0, every dialog closed |
| HomePage.Page.DayClick | src/app/page.tsx:49-59 | the day, month and weekday are recorded and the detail dialog opens |
| HomePage.Page.EditDay | src/app/page.tsx:61-64 | the detail dialog gives way to the edit dialog |
| HomePage.Page.PressEditButton | src/app/page.tsx:370-379 | pressing the dialog's edit button runs its close handler and then its edit handler: the detail dialog closes, the edit dialog opens on the same day, month and weekday (also src/components/DayDetailModal.tsx:224-229, src/app/page.tsx:61-64) |
| HomePage.Page.CloseDayDetail | src/app/page.tsx:372 | the detail dialog closes |
| HomePage.Page.CloseDayEdit | src/app/page.tsx:366 | the edit dialog closes |
| HomePage.Page.ViewAttachments | src/app/page.tsx:66-69 | corrected: the gallery opens on the list at its first attachment, where the source sets only the list and the open flag (see Findings) |
| Sorting.SortBy | src/components/SidePanel.tsx:52 | `sort((a, b) => a.date.localeCompare(b.date))`: a permutation of the input |
| Sorting.SortBySorted | src/components/SidePanel.tsx:52 | the result is ordered by the key |
| Sorting.SortByStable | src/components/SidePanel.tsx:52 | days with the same key keep their relative order, as `Array.prototype.sort` guarantees |
| Sorting.SortBySortedUnchanged | src/components/SidePanel.tsx:52 | an already ordered list is left as it is |
| Text.TrimEmptyIffAllSpace | src/components/SidePanel.tsx:104 | `s.trim()` is empty iff every character is white space (also src/components/SidePanel.tsx:155) |
| Text.ToLower | src/components/SidePanel.tsx:158 | each character lower-cased, the length kept |
| Text.Truncate | src/components/Marquee.tsx:95 | text within the limit is kept; longer text becomes its first n characters followed by exactly `...` (also src/components/LandingPage.tsx:189-191) |

## Left out

- Google Sheets and Drive, `fs`, `mkdir`, form-data parsing and `fetch` are oracles: each call returns success, a fault or an id, and nothing of the remote semantics is modelled.
- Image codecs (`sharp`, browser-image-compression, canvas `drawImage` and `toBlob`) do pixel work in foreign code; only the sizes they return, given as oracle values, and the branching on them are modelled.
- Floating point: the canvas quality is kept in integer tenths, with the floor test true only at the tenth attempt because of the binary drift of 0.9 minus eight tenths; aspect scaling uses exact reals; `toFixed(1)` is modelled as round-half-up tenths. No claim of "exactly nine attempts" is made.
- Time zones: `new Date("yyyy-MM-dd").getDay()` and the `toISOString` date stepping are the civil-calendar weekday and next date, which is what the browser gives for a non-negative UTC offset such as Asia/Bangkok.
- `Date.now()` and other clocks are parameters (`timestamp`, `entryId`, `dayId`); that ids made this way never collide is not something the code guarantees, so the bulk-import contracts take fresh ids as a hypothesis where they need them.
- JSON: the entries and attachments cells are encoded by the length-prefixed codec `CellCodec`, with its round trip proved; the JSON text itself and `JSON.parse` of text not written by the application are not modelled beyond "parses or does not".
- React and browser plumbing: JSX, CSS classes and colour maps, emoji, `alert` and `confirm` (a confirmation is a parameter), `setTimeout` delays, `useEffect` timing, the `isLoading` spinners, and the `Promise.all` fan-out in src/lib/context.tsx.
- Display-only text: the ` • responsible` suffix, the weekday abbreviations and `formatDate` of SidePanel.tsx:60-68 and ActivitiesDetail.tsx:50-58, and the heading of DayEditModal.tsx:92-98.
- The `key in settings` test of src/app/api/settings/route.ts:22 also accepts inherited names such as `toString`; the model accepts only the three declared fields.
- `toLowerCase` is modelled on ASCII letters only; Thai has no case, but other scripts' case folding is not modelled.
- The holiday presets are data: their dates and names are not checked, and the model takes the table as a parameter.
- Plaintext password comparison is modelled as it is; its security is not a property of the model.
- Not part of this model: src/lib/google.ts (a client wrapper), src/app/api/debug-auth/route.ts (a diagnostic), the standalone scripts, LoginModal.tsx, UserGuide.tsx and layout.tsx (interface only); src/lib/types.ts gives the datatypes of `Types`.
- DayEditModal.DayEditor.UpdateEntry: requires an index of a shown entry; the inputs pass only such indexes.
- Editing.MonthEditor.UpdateEntry: requires an index of a shown entry; the inputs pass only such indexes.
- AttachmentGallery.Gallery.GoNext: requires more than one attachment, since the arrow is rendered only then.
- AttachmentGallery.Gallery.GoPrev: requires more than one attachment, since the arrow is rendered only then.
- AttachmentGallery.Gallery.Select: requires an index of a shown thumbnail.
- HomePage.Page.DayClick: leaves the edit flag as it was, as the source does; it states "one dialog open" only when the edit dialog was closed.
- Calendar.ParseYearMonth: accepts only `yyyy-MM` with two month digits and a month 1 to 12; the source's `split('-')` and `parseInt` also accept values such as `2025-1`, `2025-13` or `2025-01x`, and `new Date` rolls an out-of-range month over, so those values are not modelled (the application writes months as `yyyy-MM`).
- Calendar.ParseDateParts: accepts only `yyyy-MM-dd`; `split('-')` and `parseInt` also read non-padded dates such as `2025-3-5`, which the model rejects.
- Calendar.WeekdayOf: gives None for every string that is not a valid `yyyy-MM-dd`; the browser's date parser also gives a weekday for forms such as `2025-3-5`, which is not modelled.
- BulkImport.MonthCandidates: generates no dates for a month value that is not a valid `yyyy-MM`; for `2025-1` the source generates `2025-1-01` to `2025-1-31`, and for `2025-13` 31 rolled-over dates, which are not modelled.
- QuickCalendar.DaysInMonthOf: gives no length for a month value that is not a valid `yyyy-MM`, where `new Date(y, m, 0).getDate()` gives 31 for `2025-13` and `2025-1`.
- Views.Cell: draws no cells for a month value that is not a valid `yyyy-MM`, where the source draws the cells of the rolled-over month.
- ThaiDates.DateLabel: gives no label for a date that is not a valid `yyyy-MM-dd`, where the source labels `2025-3-5` as `5 มี.ค. 2568`.
- UploadRoute.SafeFileName: strings are sequences of code points, while the regex of src/app/api/upload/route.ts:84 (no `u` flag) replaces each UTF-16 unit: `😀.png` becomes `__.png` in the source and `_.png` here, so "the same length" holds in code points only.
- Text.Truncate: counts code points, while `length` and `substring` count UTF-16 units; a text with characters outside the Basic Multilingual Plane (emoji) is cut at another place, or not at all.
- Marquee.View: the 50-character cut of src/components/Marquee.tsx:95 is taken in code points, not UTF-16 units, as for Text.Truncate.
- LandingPage.ShownDetail: the 40-character cut of src/components/LandingPage.tsx:189-191 is taken in code points, not UTF-16 units, as for Text.Truncate.
- Sheets.ReplaceAll and Sheets.Sheet.Clear: the bounded clear ranges (Settings!A2:B100, Users!A2:D1000, Years!A2:E1000, Months!A2:D10000, Days!A2:E99999) are modelled as clearing the whole table; rows below a range's end would survive in the source.
- Sorting.SortBy: `localeCompare` is modelled as code-point order (`LexLe`); the locale's collation is not modelled.
- AppContext.AppState.Refresh: a thrown `fetch` or `json()` is modelled as happening before any state is set, which is where the source can throw.

## Findings

| source | as written | input that shows it | evidently intended | confidence | as-written member | corrected member |
|---|---|---|---|---|---|---|
| src/components/BulkImportModal.tsx:419-427, src/app/api/days/route.ts:50-59 | each generated day is sent to `POST /api/days` as one object; that route expects the whole table as an array, clears the Days table, skips the write because an object has no `length`, and answers success | a Days table with any rows and a bulk import that creates one day: the import reports one success and the table is left empty | each generated day is added to the table (a `PUT` upsert, which appends a day whose id is new) | high, not executed | BulkImport.PostEachDay, BulkImport.BulkCreateWipesTable | BulkImport.UpsertEachDay, BulkImport.GenerateDays |
| src/components/FileUpload.tsx:107-118 | when `toBlob` yields `null`, the callback lowers the quality and tries again without limit, since the floor test is only reached together with a blob | a canvas whose `toBlob` always yields `null` (for instance one too large for the browser): the promise never settles and the upload hangs | give up on a missing blob (keep the original file) and stop at the quality floor | medium, not executed | FileUpload.FirstAccepted, FileUpload.NullBlobsNeverSettle | FileUpload.FirstSettled, FileUpload.SettlingAgrees, FileUpload.CompressCanvas |
| src/app/page.tsx:66-69, src/components/AttachmentGallery.tsx:13, 33, 83 | the gallery stays mounted while closed and opening it sets only the list, so the selected index survives from the previous list | view a day with three files, move to the third, close, then view a day with one file: the index is 2, `attachments[2]` is `undefined`, and reading its `mimeType` throws | the gallery starts at the first attachment of the list it opens on | high, not executed | AttachmentGallery.Gallery.OpenAsWritten, AttachmentGallery.StaleIndexAsWritten | AttachmentGallery.Gallery.Open, AttachmentGallery.SameStepsCorrected, HomePage.Page.ViewAttachments |

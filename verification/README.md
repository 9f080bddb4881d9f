# Nexteer energy invoice functions — a Dafny model

This project models the decision logic of the Azure Functions behind the Nexteer
energy-invoice capstone:

- **The invoice blob triggers.** An uploaded invoice is filtered by extension and saved to
  a temp file. It is analysed by Document Intelligence, whose blank table cells and tables
  that end up empty are dropped. A language model then turns the result into JSON; the
  code cuts the first-`{`-to-last-`}` span out of the reply. The parsed object is stored
  as a Table Storage entity. The entity's partition key is the file name without its last
  extension, every value is `str`-coerced and `Verified` is false. Finally the stand-alone
  trigger posts a summary to the spreadsheet updater, on a best-effort basis. The
  top-level app formats and stores twice and posts nothing. In both triggers the temp file
  is removed in a `finally` block.
- **The three `updateexcel` handlers** (main app, `update_excel_http`, `sharepoint`). Each
  validates four parameters and resolves the workbook on SharePoint. It then scans the
  used range for the first row whose date falls in the requested month; a date cell is
  either a serial day count from 1899-12-30 or an `MM/DD/YYYY` text. Each handler looks up
  the column letter for the plant and utility and patches `{letter}{row}`. The three
  variants differ in error order, in where a bad `year_month` is caught, in which cells
  they tolerate, and in how they choose the file.
- **The invoice record API.** `write_invoice` validates the keys, protects them from being
  overridden and forces `Verified` to false. It then upserts in merge mode. `get_invoice`
  reads a record back.

Every cloud call is an input to the model: the Document Intelligence result, the model's
reply, `json.loads`, the `uuid4` row keys, the Graph lookups, the used range, the patch
status and whether the table store accepts a write. Python's semantics are spelled out
where the code depends on them:

- `str.strip`, `str.lower` and `endswith`;
- `dict.get`, where a repeated JSON key keeps its last value;
- truthiness and `str()` of a parsed value;
- `posixpath.basename` and `splitext`, where a leading dot does not start an extension;
- the greedy `re.search(r'{.*}', DOTALL)`;
- `datetime` arithmetic over years 1..9999;
- the token grammar of `strptime` for `%Y-%m` and `%m/%d/%Y`, with ASCII digits only (see "## Left out").

Modules:

- `Wrappers`: `Option`.
- `Text`: string helpers with Python's semantics.
- `Calendar`: `datetime` ordinals and the serial epoch.
- `DateParse`: the two `strptime` formats.
- `PyJson`: the values `json.loads` returns.
- `Extraction`: the pipeline's pure steps.
- `Pipeline` and `PipelineProperties`: the triggers as traces.
- `Sheet`: what the updaters share.
- `UpdateExcel`, `UpdateExcelHttp` and `UpdateExcelSharePoint`: one module per handler.
- `UpdaterAgreement`: how the three handlers relate.
- `InvoiceApi`: the record API.

Serial 44926 is 2022-12-31 (`Calendar.SerialCalibrationYearEnd`).

## Model

| member | source | states |
|---|---|---|
| Text.Strip | azurefn/invoice_blob_trigger/function_app.py:140 | `strip()` removes only whitespace runs at the two ends. The result starts and ends with non-whitespace and is empty exactly when the text is all whitespace |
| Text.StripUnpadded | azurefn/invoice_blob_trigger/function_app.py:140 | a reply with no surrounding whitespace is left as it is by `strip()` |
| Text.Lower | azurefn/invoice_blob_trigger/function_app.py:34 | lowering keeps the length and lowers each ASCII capital in place |
| Text.NatToStringRoundTrip | azurefn/function_app.py:446 | the decimal text written for the target row reads back as that row number |
| Calendar.ToOrdinalCounts | azurefn/function_app.py:431 | `date.toordinal`, which the `timedelta` arithmetic rests on, counts days: 0001-01-01 is day 1, and the day after any valid date is a valid date one ordinal later |
| Calendar.FromOrdinal | azurefn/function_app.py:431 | the date `timedelta` arithmetic lands on is in `datetime`'s range and has exactly the given day ordinal |
| Calendar.FromOrdinalOfToOrdinal | azurefn/function_app.py:431 | every date `datetime` can hold has an ordinal in range and is recovered from it |
| Calendar.OrdinalInjective | azurefn/function_app.py:431 | two valid dates with the same ordinal are the same date |
| Calendar.SerialToDate | azurefn/function_app.py:431 | `EXCEL_EPOCH + timedelta(days=n)` is the date n days after 1899-12-30. It is None exactly when that leaves `datetime`'s range (Python's OverflowError) |
| Calendar.SerialToDateComplete | azurefn/function_app.py:431 | every representable date is reached by the serial equal to its day distance from the epoch |
| Calendar.SerialToDateCharacterized | azurefn/function_app.py:431 | serial n gives date d if and only if d lies exactly n days after 1899-12-30 |
| Calendar.SerialRange | azurefn/function_app.py:431 | a serial gives a date if and only if -693593 <= n <= 2958465 |
| Calendar.SerialCalibrationZero | azurefn/function_app.py:416 | serial 0 is the epoch 1899-12-30 itself |
| Calendar.SerialCalibrationOne | azurefn/function_app.py:431 | serial 1 is 1899-12-31 |
| Calendar.SerialCalibration2000 | azurefn/function_app.py:431 | serial 36526 is 2000-01-01 |
| Calendar.SerialCalibration2023 | azurefn/function_app.py:431 | serial 44927 is 2023-01-01 |
| Calendar.SerialCalibrationYearEnd | azurefn/function_app.py:431 | serial 44926 is 2022-12-31 |
| Calendar.SerialCalibrationMidJanuary | azurefn/function_app.py:431 | serial 44941 is 2023-01-15 |
| DateParse.Year4 | azurefn/function_app.py:422 | `%Y` yields a year from 0 to 9999; `datetime` then refuses year 0 |
| DateParse.MonthToken | azurefn/function_app.py:422 | `%m` yields a month from 1 to 12 |
| DateParse.DayToken | azurefn/function_app.py:433 | `%d` yields a day from 1 to 31; the month then decides which days exist |
| DateParse.ParseYearMonth | azurefn/function_app.py:422 | a `%Y-%m` parse that succeeds yields a year in 1..9999 and a month in 1..12 |
| DateParse.ParseYearMonthExact | azurefn/function_app.py:422 | `%Y-%m` accepts exactly the spellings of valid year-months: four year digits, a dash, and a one- or two-digit month. It reads each back to its value |
| DateParse.ParseFormatYearMonth | azurefn/function_app.py:422 | a year-month written as `YYYY-MM` parses back to itself |
| DateParse.ParseYearMonthExamples | azurefn/function_app.py:422 | "2024-05" and "2024-5" parse; "2024-13", "2024-05-17" and "24-05" raise |
| DateParse.MonthTokenSpelling | azurefn/function_app.py:433 | `%m` reads month m from exactly its padded and unpadded spellings |
| DateParse.DayTokenSpelling | azurefn/function_app.py:433 | `%d` reads day d from exactly its zero-padded, unpadded and space-padded spellings |
| DateParse.ParseMonthDayYear | azurefn/function_app.py:433 | a `%m/%d/%Y` parse that succeeds yields a real calendar date in `datetime`'s range |
| DateParse.ParseMonthDayYearExact | azurefn/function_app.py:433 | `%m/%d/%Y` accepts exactly the spellings of representable dates and reads each back to its date |
| DateParse.ParseFormatMonthDayYear | azurefn/function_app.py:433 | a date written as `MM/DD/YYYY` parses back to itself |
| DateParse.ParseMonthDayYearExamples | azurefn/function_app.py:433 | "01/15/2023" and "02/29/2024" parse to those dates |
| DateParse.ParseMonthDayYearUnpadded | azurefn/function_app.py:433 | "1/5/2023" and "12/ 5/2023" parse too |
| DateParse.ParseMonthDayYearRejects | azurefn/function_app.py:433 | February 29th of 2023, month 13, year 0 and a two-digit year raise |
| Sheet.FirstIndex | azurefn/function_app.py:378 | `next(...)` over a listing: the first index whose element satisfies the test, or None when none does |
| Sheet.FirstIndexExact | azurefn/function_app.py:378 | the first-match result is fully determined: index k if and only if element k passes and no earlier one does |
| Sheet.RowDate | azurefn/function_app.py:427-437 | A row's date comes from its first cell. An integer (or a bool) is that many days after 1899-12-30; a text cell is read as `MM/DD/YYYY`. Empty rows and other values give no date |
| Sheet.RowDateExact | azurefn/function_app.py:427-437 | The converse: every integer serial from -693593 to 2958465 and both booleans give a date, an in-range integer gives exactly the date that many days after the epoch, and a text cell gives date d exactly when it is one of d's `MM/DD/YYYY` spellings. An empty row gives none |
| Sheet.TextDate | azurefn/function_app.py:433 | a text cell's date is one the text actually spells as `MM/DD/YYYY` |
| Sheet.FirstRowInMonth | azurefn/function_app.py:419-440 | The result is the 1-based number of the first row whose date is in the month. No earlier row is in the month, and None means no row is |
| Sheet.FirstRowInMonthExact | azurefn/function_app.py:419-440 | the first-match row number is fully determined by the rows and the month |
| Sheet.ColumnTable | azurefn/function_app.py:389-400 | the column table holds exactly ("999", electricity, B), ("881", electricity, B) and ("789", electricity, C) |
| Sheet.Column | azurefn/function_app.py:402-408 | a column is found only for the electricity utility, and it is B or C |
| Sheet.CellAddress | azurefn/function_app.py:446 | the address starts with the column letters, followed by at least one character, all of them decimal digits of the row |
| Sheet.HasAllParametersMeaning | azurefn/function_app.py:337-338 | the parameter test holds exactly when each of the four `body.get` values is truthy in Python's sense, an absent one being None |
| Sheet.CellAddressSplits | azurefn/function_app.py:446 | the address `{letter}{row}` splits back into its column letters and its row number |
| Sheet.PatchReply | azurefn/function_app.py:451-455 | The patch goes to the given address with the given value. A 200 answers 200; any other status is answered unchanged as a rejected patch; a raising patch answers 500 |
| Sheet.WriteColumn | azurefn/function_app.py:402-455 | An unknown plant, then an unknown utility, answers 400 before the used range is read. Once the column is known, a raising used-range read answers 500 and otherwise the scan decides the reply: a malformed month 400, no row 404, an unreadable cell 500, and a found row the patch's own status (500 when it raises). It fails with 500 exactly in those three cases. A patch happens exactly when the column exists and the row is found, and it is `{letter}{row}` with the value |
| Sheet.FolderId | azurefn/function_app.py:369-372 | the folder id is that of the first item named "Plant Data Test", and it must be non-empty |
| Sheet.ChooseFile | azurefn/function_app.py:377-381 | the workbook is the first item the file policy accepts, or None when no item does |
| Sheet.Resolve | azurefn/function_app.py:342-383 | Token, site, drive, folder list and file list come in that order. A raising token, site, drive or folder-list step answers 500, a missing folder 404, a raising file list 500, and a missing file 404. The workbook is resolved exactly when every step succeeds and the folder and the file are found, and the resolved id is the chosen file's |
| UpdateExcel.ScanRows | azurefn/function_app.py:418-443 | With no rows the month is never parsed (404). Otherwise a malformed month is 400; else the first row in the month is taken, or not found |
| UpdateExcel.Update | azurefn/function_app.py:328-459 | A missing or falsy parameter answers 400 before any remote call. A body that is not an object answers 500. A complete request gets exactly `Handle`'s reply. Any remote call starts with the token. A malformed month answers 400 only when the used range has rows, and 404 means no row is in the month. 200 means the patch answered 200 and the last call patched the new value into `{letter}{row}` of the first row in the month |
| UpdateExcel.Handle | azurefn/function_app.py:342-455 | A stopped resolution is answered with its own reply. The column is checked before the used range is read. A 400 for a bad month needs rows, 404 means the scan found nothing, and 200 means the found row was patched at `{letter}{row}` |
| UpdateExcel.HandleOutcome | azurefn/function_app.py:342-459 | for every complete request: a raising lookup answers 500, a missing folder or workbook 404, an unknown plant or utility 400, a raising used-range read 500; then a malformed month (with rows) 400, no row in the month 404, and a found row the patch's own status, 200 on success and 500 when it raises |
| UpdateExcelHttp.ScanRows | azurefn/update_excel_http/function_app.py:82-92 | the for/else loop finds the first row in the month, and answers 404 exactly when no row is in it |
| UpdateExcelHttp.PatchRow | azurefn/update_excel_http/function_app.py:98-119 | The column is looked up after the row is found: a missing entry answers 400 without a patch. Otherwise it patches `{col}{row}`: a 200 answers 200, any other status is answered unchanged, and a raising patch answers 500 |
| UpdateExcelHttp.WriteMonth | azurefn/update_excel_http/function_app.py:71-119 | The used range is read first, and a malformed month raises (500) even with no rows. A missing date is 404, and the column is checked only after a row is found |
| UpdateExcelHttp.Update | azurefn/update_excel_http/function_app.py:29-125 | The handler with its intended statuses. A missing parameter is 400 before any call, and a stopped resolution is answered with its own reply. An unknown plant or utility is one combined 400, given only after the used range was read and without a patch. A 404 means the month parsed and no row is in it. A 200 patched the found row at `{col}{row}` |
| UpdateExcelHttp.UpdateOutcome | azurefn/update_excel_http/function_app.py:29-125 | for every complete request, with the intended statuses: a raising lookup answers 500, a missing folder or workbook 404; then a raising used-range read or a malformed month 500, no row in the month 404, an unknown plant or utility 400, and a found row the patch's own status, 200 on success and 500 when it raises |
| UpdateExcelHttp.UpdateAsWritten | azurefn/update_excel_http/function_app.py:35 | the handler as written makes the same calls, but every reply built with a positional status becomes a 500 |
| UpdateExcelHttp.AsWrittenNeverSucceeds | azurefn/update_excel_http/function_app.py:119 | as written the handler answers only 500 or a rejected patch's own non-200 status: never 200, and never a 400 or 404 from its own branches |
| UpdateExcelHttp.AsWrittenFailsAfterPatch | azurefn/update_excel_http/function_app.py:114-119 | a request whose patch succeeds has its cell written, yet the written handler answers 500 |
| UpdateExcelHttp.ExampleResolves | azurefn/update_excel_http/function_app.py:55-67 | the folder and the exactly-named workbook are found in a concrete listing |
| UpdateExcelHttp.ExampleRowFound | azurefn/update_excel_http/function_app.py:82-88 | a sheet whose first row reads "01/15/2023" has January 2023 on row 1 |
| UpdateExcelHttp.ExampleWrites | azurefn/update_excel_http/function_app.py:110-119 | the example request patches B1 with its value and answers 200 |
| UpdateExcelSharePoint.Kind | azurefn/sharepoint/function_app.py:104-111 | an empty row is skipped, and a row raises the type error exactly when its first cell is not text |
| UpdateExcelSharePoint.KindMeaning | azurefn/sharepoint/function_app.py:107-111 | a row is a hit exactly when its text date falls in the month, a type error exactly when its first cell is not text, and skipped otherwise (empty rows and unparseable text) |
| UpdateExcelSharePoint.ScanKinds | azurefn/sharepoint/function_app.py:99-114 | the loop stops at the first hit (row index+1) or the first type error, whichever comes first, having skipped everything before it |
| UpdateExcelSharePoint.ScanText | azurefn/sharepoint/function_app.py:99-114 | a found row is the first text date in the month with only skipped rows before it; a type error means a non-text cell came first |
| UpdateExcelSharePoint.ScanRows | azurefn/sharepoint/function_app.py:98-117 | a malformed month is reported only when there are rows; otherwise the text-only scan decides |
| UpdateExcelSharePoint.Update | azurefn/sharepoint/function_app.py:14-133 | A falsy parameter answers 400 before any remote call, and a complete request gets exactly `Handle`'s reply. A non-text cell met in the used range before the month's row answers 500. A malformed month answers 400 only when there are rows, and 404 means no text row is in the month. 200 means the patch answered 200 and the last call patched the new value into `{letter}{row}` of the first text row in the month |
| UpdateExcelSharePoint.Handle | azurefn/sharepoint/function_app.py:25-129 | A stopped resolution is answered with its own reply. The column is checked before the used range. A non-text cell met before the match answers 500. A 200 patches the found row at `{letter}{row}` |
| UpdateExcelSharePoint.HandleOutcome | azurefn/sharepoint/function_app.py:25-133 | for every complete request: a raising lookup answers 500, a missing folder or workbook (first name containing the plant id) 404, an unknown plant or utility 400, a raising used-range read 500; then a malformed month (with rows) 400, a non-text cell before the match 500, no text row in the month 404, and a found row the patch's own status, 200 on success and 500 when it raises |
| UpdaterAgreement.MainAndHttpPickSameRow | azurefn/update_excel_http/function_app.py:79-92 | once the month parses and there are rows, the main and the http handler pick the same row |
| UpdaterAgreement.TextRowAgrees | azurefn/sharepoint/function_app.py:107-111 | on a text or empty row the string-only reading and the serial-or-string reading agree |
| UpdaterAgreement.SharePointAgreesOnText | azurefn/sharepoint/function_app.py:99-114 | on a sheet of text dates the string-only matcher finds exactly the row the serial-or-string matcher finds |
| UpdaterAgreement.SharePointAgreesWithMain | azurefn/sharepoint/function_app.py:98-117 | on a sheet of text dates the two whole loops agree, the month check included |
| UpdaterAgreement.NonTextCellStopsSharePoint | azurefn/sharepoint/function_app.py:109 | a float or null cell ahead of the month's row is skipped by the main handler's `else: continue` and stops the SharePoint handler with a type error |
| UpdaterAgreement.HttpChecksDateBeforeColumn | azurefn/update_excel_http/function_app.py:82-107 | a month missing from the sheet with an unsupported plant gives 404 from the http handler. The main handler gives 400 without reading the sheet |
| UpdaterAgreement.MalformedMonthReplies | azurefn/update_excel_http/function_app.py:79 | A malformed month on a supported column is 500 in the http handler. In the main handler it is 400 with rows and 404 without |
| UpdaterAgreement.ExactNameImpliesContains | azurefn/sharepoint/function_app.py:60 | wherever the exact-name handlers find a workbook, the substring handler finds one too |
| UpdaterAgreement.SubstringPicksOtherPlant | azurefn/sharepoint/function_app.py:60 | plant "99" picks the workbook of plant "999" by substring, and finds none by exact name |
| UpdaterAgreement.SerialRowsOutsideMonth | azurefn/function_app.py:431-438 | rows holding serials 1 and 44926 are not in January 2023 |
| UpdaterAgreement.SerialRowInMonth | azurefn/function_app.py:431-440 | a row holding serial 44941 is January 2023's row |
| UpdaterAgreement.TextRowFound | azurefn/function_app.py:433-440 | a first row reading "01/15/2023" is January 2023's row 1 |
| UpdaterAgreement.MalformedMonthNeedsRows | azurefn/function_app.py:419-424 | month 13 is reported as malformed only when the sheet has a row, and as not found otherwise, in both loop-parsing handlers |
| PyJson.FalsyValues | azurefn/invoice/function_app.py:18 | the values `not` treats as false are exactly None, False, 0, the empty string, the empty list and the empty object |
| PyJson.Lookup | azurefn/invoice/function_app.py:15-16 | `dict.get` is None exactly when no pair has the key; otherwise it is the value of the key's last pair |
| PyJson.LaterPairWins | azurefn/invoice/function_app.py:15 | a later pair for a key overrides an earlier one whatever lies between |
| PyJson.ObjectMap | azurefn/invoice_blob_trigger/function_app.py:163 | the dict's keys are exactly the object's keys, each with its `get` value |
| PyJson.Keys | azurefn/invoice_blob_trigger/function_app.py:163 | `items()` lists each key of the object once |
| PyJson.PyStr | azurefn/invoice_blob_trigger/function_app.py:163 | `str(v)` is the text itself for a string, the decimal form for an integer, and the bracketed repr for a list or dict |
| PyJson.Repr | azurefn/invoice_blob_trigger/function_app.py:163 | `repr` quotes a string and brackets a list or a dict |
| PyJson.Slice7 | azurefn/invoice_blob_trigger/function_app.py:185 | `[:7]` is the prefix of at most seven characters or items, and raises for any other value |
| Extraction.SupportedBySuffix | azurefn/invoice_blob_trigger/function_app.py:33-34 | a name is accepted exactly when its last characters, lower-cased, are one of `.pdf`, `.png`, `.jpg`, `.jpeg` or `.tiff` |
| Extraction.SupportedIgnoresCase | azurefn/invoice_blob_trigger/function_app.py:33-36 | two names that agree after lowering are accepted or skipped together |
| Extraction.SupportedExamples | azurefn/invoice_blob_trigger/function_app.py:33-36 | "invoice.PDF" and "scan.Jpeg" are processed; "invoice.pdf.txt" and "invoice" are skipped |
| Extraction.BlankIsEmptyStrip | azurefn/invoice_blob_trigger/function_app.py:68 | a cell is dropped exactly when its content strips to nothing |
| Extraction.KeptCells | azurefn/invoice_blob_trigger/function_app.py:62-69 | the kept cells are exactly the cells whose content is not blank |
| Extraction.KeptCellsAppend | azurefn/invoice_blob_trigger/function_app.py:62-69 | filtering distributes over concatenation, so kept cells keep their order |
| Extraction.KeptCellsIdempotent | azurefn/invoice_blob_trigger/function_app.py:68 | filtering the kept cells again changes nothing |
| Extraction.KeptTables | azurefn/invoice_blob_trigger/function_app.py:59-75 | every kept table has cells, none of them blank. The kept tables are exactly the trimmed input tables that still have a cell |
| Extraction.KeptTablesAppend | azurefn/invoice_blob_trigger/function_app.py:59-75 | table filtering distributes over concatenation, so kept tables keep their order |
| Extraction.ExtractedFields | azurefn/invoice_blob_trigger/function_app.py:53-57 | Fields come from the first document only, in order, each as its content or else its `str`. With no document there are none. A first document whose `fields` is None makes `.items()` raise |
| Extraction.ExtractPayload | azurefn/invoice_blob_trigger/function_app.py:53-80 | The model is shown the first document's fields and the kept tables. There is no payload exactly when the first document's `fields` is None (line 56 raises) or the `tables` attribute is None (the loop at line 61 raises). An absent attribute gives no tables |
| Extraction.BraceSpan | azurefn/invoice_blob_trigger/function_app.py:143 | `{.*}` under DOTALL matches from the first `{` to the last `}` after it, and there is no match exactly when no `{` precedes a `}` |
| Extraction.BraceSpanLeftmostLongest | azurefn/invoice_blob_trigger/function_app.py:143 | the span is fully determined: its start is the first `{` and its end the last `}` |
| Extraction.ExtractJsonSpan | azurefn/invoice_blob_trigger/function_app.py:143-147 | The extracted text is that span, from `{` to `}` inclusive. It exists exactly when the regex matches; otherwise a ValueError is raised |
| Extraction.ExtractJsonSpanNested | azurefn/invoice_blob_trigger/function_app.py:143-147 | "a{b{}c}d" yields "{b{}c}" |
| Extraction.ExtractJsonSpanUnbalanced | azurefn/invoice_blob_trigger/function_app.py:143-147 | "}{" has no span |
| Extraction.Basename | azurefn/invoice_blob_trigger/function_app.py:156 | the basename is a suffix of the path that holds no `/` and starts at the path's start or right after a `/`: the part after the last `/` |
| Extraction.BasenameOfPath | azurefn/invoice_blob_trigger/function_app.py:156 | the basename of `dir/name` is `name` |
| Extraction.ExtensionStart | azurefn/invoice_blob_trigger/function_app.py:156 | the extension starts at the last dot, and only when some non-dot precedes it |
| Extraction.SplitExt | azurefn/invoice_blob_trigger/function_app.py:156 | root and extension concatenate to the name; the extension is empty or one dot followed by no other dot |
| Extraction.SplitExtJoin | azurefn/invoice_blob_trigger/function_app.py:156 | a root with a non-dot and a one-dot extension split back into themselves |
| Extraction.PartitionKeyOf | azurefn/invoice_blob_trigger/function_app.py:156-157 | the partition key has no `/` and is a prefix of the basename |
| Extraction.PartitionKeyOfPath | azurefn/invoice_blob_trigger/function_app.py:156-157 | the partition key of `dir/root.ext` is `root` |
| Extraction.PartitionKeyDropsLastExtension | azurefn/invoice_blob_trigger/function_app.py:156-157 | "uploads/march.invoice.pdf" has partition key "march.invoice" |
| Extraction.PartitionKeyKeepsDotName | azurefn/invoice_blob_trigger/function_app.py:156-157 | "uploads/.pdf" keeps ".pdf" as its partition key |
| Extraction.StrValues | azurefn/invoice_blob_trigger/function_app.py:163 | every parsed value is replaced by its `str` under the same key |
| Extraction.EntityOf | azurefn/invoice_blob_trigger/function_app.py:160-165 | The entity has the two keys, the parsed keys and `Verified`, which is false. Every other value is a string: the parsed value's `str`. A parsed `PartitionKey` or `RowKey` overrides the derived one |
| Extraction.BuildEntity | azurefn/invoice_blob_trigger/function_app.py:155-165 | an entity is built exactly when the parsed value is an object, from its dict |
| Extraction.Summary | azurefn/invoice_blob_trigger/function_app.py:184-189 | The posted body has `year_month` = `InvoiceDate[:7]` (default ""), `value` = `EnergyUsage_kWh` (default ""), plant "999" and utility "electricity". It fails exactly when the date cannot be sliced |
| Extraction.SummaryOfIsoDate | azurefn/invoice_blob_trigger/function_app.py:185 | invoice date "2024-05-17" gives year_month "2024-05" |
| Extraction.SummaryOfOddDates | azurefn/invoice_blob_trigger/function_app.py:185 | a missing date gives "" and an integer date raises |
| Pipeline.ParsedReply | azurefn/invoice_blob_trigger/function_app.py:140-155 | a reply holding a span is parsed as `json.loads` of the span of the stripped reply; no reply or no span gives nothing |
| Pipeline.Round | azurefn/invoice_blob_trigger/function_app.py:140-177 | A round stores exactly when the reply parses to an object and the store accepts it. The stored entity is the parsed object's entity under the file's partition key. A missing reply or span fails in the formatting stage, anything else in the store stage |
| Pipeline.RoundEvents | azurefn/invoice_blob_trigger/function_app.py:88-177 | a round asks the model first and makes at most one more call, the upsert; only a stored round's entity counts as applied, and nothing is posted |
| Pipeline.Propagate | azurefn/invoice_blob_trigger/function_app.py:179-195 | the summary is posted exactly when the object has a sliceable date and both settings exist; nothing else is stored |
| Pipeline.WithTempFile | azurefn/invoice_blob_trigger/function_app.py:38-44 | A failed create raises with no calls, and a failed write raises in the save stage. Otherwise the body runs between create and remove, and its upserts are all there are |
| Pipeline.InvoiceBody | azurefn/invoice_blob_trigger/function_app.py:46-195 | the steps after the save never create or remove the temp file and never report a skip |
| Pipeline.InvoiceTrigger | azurefn/invoice_blob_trigger/function_app.py:32-36 | an unsupported name returns at once with no call at all, and only such a name is skipped |
| Pipeline.MainBody | azurefn/function_app.py:54-286 | the steps after the save never touch the temp file and never report a skip |
| Pipeline.MainTrigger | azurefn/function_app.py:40-44 | an unsupported name returns at once with no call at all, and only such a name is skipped |
| PipelineProperties.FrameCleans | azurefn/invoice_blob_trigger/function_app.py:199-202 | with the path recorded when the file is created, every run that creates the file removes it last |
| PipelineProperties.PathFirstCleansUp | azurefn/invoice_blob_trigger/function_app.py:199-202 | with the path recorded on creation, both triggers remove the temp file on every exit |
| PipelineProperties.FrameAsWritten | azurefn/invoice_blob_trigger/function_app.py:41-44 | as written, the temp file is cleaned up exactly unless it was created and writing into it raised |
| PipelineProperties.AsWrittenLeaksOnlyOnWrite | azurefn/invoice_blob_trigger/function_app.py:41-44 | as written, both triggers clean up exactly unless the file was created and writing the upload into it raised |
| PipelineProperties.AsWrittenLeakTrace | azurefn/invoice_blob_trigger/function_app.py:41-43 | when that write raises, the written code creates the file and never removes it; with the path recorded first it is removed |
| Pipeline.PayloadOf | azurefn/invoice_blob_trigger/function_app.py:47-86 | the analysis stage yields no payload exactly when the service call raises, the first document's `fields` is None, or the result's `tables` is None |
| PipelineProperties.InvoiceOutcome | azurefn/invoice_blob_trigger/function_app.py:196-198 | A failed save or analysis re-raises from that stage, and a failed round re-raises from its stage. The run succeeds exactly when every stage up to the store succeeds, whatever propagation does |
| PipelineProperties.MainOutcome | azurefn/function_app.py:288-290 | the top-level trigger succeeds exactly when both rounds store, and re-raises from the failing round's stage otherwise |
| PipelineProperties.FrameTrace | azurefn/invoice_blob_trigger/function_app.py:199-202 | the temp-file frame adds no post and leaves the order of the other calls alone |
| PipelineProperties.InvoiceBodySucceeds | azurefn/invoice_blob_trigger/function_app.py:153-195 | A successful body stored the first round's entity once. It posted the summary exactly when both settings exist and the summary can be built |
| PipelineProperties.InvoiceBodyWithoutPosts | azurefn/invoice_blob_trigger/function_app.py:181-195 | the propagation settings change neither the outcome nor any call but the post |
| PipelineProperties.MainBodySucceeds | azurefn/function_app.py:163-286 | a successful top-level body stored both rounds' entities, in order, and posted nothing |
| PipelineProperties.MainBodyKeepsFirst | azurefn/function_app.py:262-290 | a second round that fails re-raises from its stage, with the first entity already stored |
| PipelineProperties.PropagationNeverDecides | azurefn/invoice_blob_trigger/function_app.py:194-195 | whether the update settings exist never changes the outcome or any call but the post |
| PipelineProperties.InvoicePostsSummary | azurefn/invoice_blob_trigger/function_app.py:182-191 | a successful run posts the summary of the stored object exactly when both settings exist and the summary can be built, and posts nothing otherwise |
| PipelineProperties.InvoiceStoresOnce | azurefn/invoice_blob_trigger/function_app.py:169-171 | a successful run stored exactly one entity, the first round's |
| PipelineProperties.MainStoresTwice | azurefn/function_app.py:163-286 | a successful top-level run stored exactly two entities, the first and the second round's, and posted nothing |
| PipelineProperties.MainSecondRoundFailureKeepsFirst | azurefn/function_app.py:284-286 | when the second round fails the run re-raises, and the first round's entity stays stored |
| PipelineProperties.StoredRoundsShareKey | azurefn/function_app.py:265-274 | Both stored entities carry `Verified` false and the same partition key from the file name. Each carries its own row key, unless the parsed object overrides them |
| InvoiceApi.Upsert | azurefn/invoice/function_app.py:31 | a merge upsert adds the key. The new properties win, the stored record's other properties stay, and every other record is untouched |
| InvoiceApi.UpsertIdempotent | azurefn/invoice/function_app.py:31 | upserting the same record twice is the same as once |
| InvoiceApi.RecordOf | azurefn/invoice/function_app.py:21-26 | The record has the caller's keys and every other caller field unchanged, not `str`-coerced. `Verified` is false, and no extra field can override a key |
| InvoiceApi.WriteInvoice | azurefn/invoice/function_app.py:10-37 | A body that is not a JSON object is 500. A missing or falsy key is 400, and a failed upsert is 500; neither changes the store. 200 exactly when the keys are truthy and the store accepts, with the record merged in |
| InvoiceApi.GetInvoice | azurefn/invoice/function_app.py:39-57 | A missing or empty key parameter is 400. A missing record or a failing store is 500. Otherwise it is 200 with the stored record |
| InvoiceApi.MissingKeyWritesNothing | azurefn/invoice/function_app.py:15-19 | a body without `PartitionKey`, or with an empty `RowKey`, gets 400 and the store is unchanged |
| InvoiceApi.CallerCannotVerify | azurefn/invoice/function_app.py:24-25 | whatever the caller sends under `Verified`, the stored record says false |
| InvoiceApi.WriteThenGet | azurefn/invoice/function_app.py:21-53 | a record written with string keys reads back with 200: `Verified` is false, the keys are the caller's, and every other field is as sent |
| InvoiceApi.WriteIsLocal | azurefn/invoice/function_app.py:31 | a write leaves every record under other keys as it was |

## Left out

- **Cloud calls.** Document Intelligence, Azure OpenAI, Table Storage, Blob Storage and
  Microsoft Graph are not modelled. Each call is its answer or its failure, given as an
  input. The 300-second poller timeout is part of the analysis outcome.
- **Token and JWT.** Token acquisition (the OAuth2 client-credentials grant of section
  4.4 of RFC 6749) is only a success flag. The same goes for the SharePoint variant's token
  taken from the environment. The diagnostic JWT decode (RFC 7519) never affects a reply
  and is left out.
- **Prompt text.** The prompt given to the language model is free text and is left out.
  The model's reply is an input.
- **`json.loads`.** The parser is the parameter `parse`, a partial function on the
  extracted span.
- **`uuid4`.** The row keys are the inputs `rowKey1` and `rowKey2`. Their freshness is not
  assumed, so no lemma relies on them being different.
- **Logging.** All logging is left out, including the message at
  azurefn/function_app.py:191-193, which names the wrong stage. Only its text is wrong.
- Pipeline.Propagate: the answer to `requests.post` is not modelled, and neither is a post
  that raises. The code never looks at the answer and swallows the exception, so the
  model records only the attempted post.
- PyJson.Repr: strings are shown between single quotes without Python's escaping or quote
  choice. JSON numbers are integers only; floats and their `str` are not modelled.
- DateParse.ParseYearMonth: `%Y` reads only ASCII digits. CPython's `\d` and `int()` also
  accept other Unicode decimal digits, such as "٢٠٢٣-01". Which characters count depends on
  the interpreter's Unicode database, not on this code, so the model keeps to `0`-`9`.
- DateParse.ParseYearMonthExact: the spellings are those with ASCII digits; a year
  written in other Unicode decimal digits is not among them, for the reason above.
- DateParse.DayTokenSpelling: the second digit of `[1-2]\d` is ASCII only, for the reason
  above.
- DateParse.ParseMonthDayYear: years and days written in non-ASCII decimal digits are
  rejected here, while CPython accepts them, for the reason above. This carries over to
  `Sheet.TextDate`, `Sheet.RowDate` and the SharePoint handler's row test.
- DateParse.ParseMonthDayYearExact: the spelling set holds the ASCII spellings only, for
  the reason above.
- Text.Lower: only ASCII letters are lowered. The supported extensions are ASCII, so the
  extension test is unaffected.
- **Floating-point cells.** These and `null` cells are `Other` and never a date. Booleans
  are modelled as the 0/1 serials Python's `isinstance(_, int)` makes of them.
- **Non-string request parameters.** The `updateexcel` parameters are strings or absent.
  Numbers or lists sent as parameters are not modelled.
- InvoiceApi.WriteInvoice: keys of any truthy JSON type are accepted. The table service's
  own rejection of non-string keys, and a missing `AzureWebJobsStorage` setting, are both
  covered by the `storeUp` flag.
- InvoiceApi.GetInvoice: the reply's JSON text (`json.dumps`) and the table's metadata
  fields are not modelled. The reply carries the stored record itself.
- **Separate stores.** The pipeline's upserts and the record API's store are modelled
  separately. No lemma follows an entity from a blob trigger into `get_invoice`.
- **File paths.** Paths are POSIX paths with `/` as the only separator, as blob names are.
- **Temp-file details.** The temp file's contents, `os.path.exists` and a failing
  `os.remove` are left out.
- UpdateExcel.ScanRows: the main and SharePoint handlers parse `year_month` once per row.
  The model parses it once, which gives the same result because the parse does not depend
  on the row.
- **Registration wiring.** `app` is reassigned at azurefn/function_app.py:326 and used
  undefined at azurefn/sharepoint/function_app.py:11. This is runtime plumbing, not logic.
- **Other code.** The log-only `blob_trigger_func` and the commented-out code in
  azurefn/invoice/function_app.py are left out, as are concurrency across invocations and
  the Flask upload front end.

## Findings

| source | as written | input that shows it | evidently intended | confidence | as-written member | corrected member |
|---|---|---|---|---|---|---|
| azurefn/update_excel_http/function_app.py:119 | The replies at lines 35, 59, 67, 92, 107 and 119 pass the status code as a second positional argument. `func.HttpResponse` accepts `status_code` only by keyword, so each construction raises `TypeError` and the outer handler answers 500 | A complete request for "2023-01", plant "999", electricity. The workbook's first row reads "01/15/2023" and the patch answers 200. The cell is written, yet the reply is 500 | Each reply carries its status: 400, 404 and 200 as the handler's branches say | not executed | UpdateExcelHttp.AsWrittenFailsAfterPatch | UpdateExcelHttp.Update |
| azurefn/invoice_blob_trigger/function_app.py:41-44 | The temp path is recorded only after the upload has been written into the temp file, which is created with `delete=False`. If `myblob.read()` or the write raises, the `finally` block sees no path and the file is never removed. azurefn/function_app.py:49-51 does the same | A supported blob whose read raises after the temp file was created. The run re-raises with the temp file left on disk | The temp file is removed on every exit once it exists | not executed | PipelineProperties.AsWrittenLeakTrace | PipelineProperties.PathFirstCleansUp |

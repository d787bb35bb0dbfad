# Spreadsheet conversion back end, modelled in Dafny

This project models the core of the conversion back end, `backend/main.py`. It has two parts.

- **The converter (`SpreadsheetLogic`).** A table of records is turned into a frame. Its headers are normalised: stripped, lower-cased, spaces turned into underscores. Every missing cell is filled with `''`. Then the rule of the file's category runs:
  - `financial` coerces `amount` to a number, with 0 where it does not parse;
  - `inventory` derives `low_stock_alert` from `stock < 10`.

  The frame is then turned back into records.
- **The task lifecycle.** `process_file_task` and `delete_file_task` run against an in-memory document store. It holds two collections, `processing_tasks` and `app_data`, and a counter that hands out fresh document ids.
  - A run stores a task record in status `processing`.
  - It converts the parsed rows.
  - It writes the first 400 converted records in one batch, each tagged with the task's id, category and custom name.
  - It marks the task `completed` with the full record count, then sends the notification.
  - An exception at any step after the task exists, except the notification, marks the task `error` with the exception's text. A failed notification is only logged and the task stays `completed`.
  - A deletion removes exactly the task's documents, then the task.

Modules:
- `Wrappers` holds `Option`.
- `Headers` holds Python's `strip`, `lower` and `replace` on header names.
- `Numeric` holds the text-to-number coercion of `pd.to_numeric(errors='coerce')`.
- `Spreadsheet` holds frames, `clean_headers`, `apply_business_rules` and `process`.
- `TaskStore` holds the documents and the `Firestore` class, whose methods are the two tasks.

I/O enters the model as parameters:
- The parsed rows of the uploaded file are an input.
- The step at which a run raises, with the exception's text, is an input. So is the step at which a deletion raises.
- Server timestamps are an opaque field value.
- The notification changes no stored state. Its failure only shows in the run's report.

Expiry is only recorded. A side file's `expiryDate` is stored on its task (`backend/main.py:108-109`). The line that would set a TTL field is commented out (`backend/main.py:111`), and nothing in the back end deletes a task or its data by expiry. The model therefore has no expiry-driven cleanup.

## Model

| member | source | states |
|---|---|---|
| Headers.Strip | backend/main.py:38 | `str.strip()` returns a contiguous slice of the name with whitespace at neither end. Everything it cuts away is Python whitespace. |
| Headers.LowerChars | backend/main.py:38 | `str.lower()` keeps the length. It turns each ASCII capital into its small letter and keeps every other character. |
| Headers.UnderscoreChars | backend/main.py:38 | `replace(' ', '_')` keeps the length. It turns each space into `_` and keeps every other character. |
| Headers.NormalizeNoSpace | backend/main.py:38 | A normalised header contains no space and is no longer than the raw name. |
| Headers.NormalizeIdempotent | backend/main.py:38 | Normalising a normalised header changes nothing. |
| Numeric.ParseNumber | backend/main.py:51 | Text that coerces to a number contains a digit. The empty string never coerces. |
| Numeric.ParseShowInt | backend/main.py:51 | Every integer written out in decimal coerces back to that integer. |
| Numeric.ParseDecimal | backend/main.py:51 | Every decimal literal, with an optional sign, a whole part, and optionally a `.` and a fractional part, coerces to its value: `9.5` to 9.5, `-.5` to -0.5, `5.` to 5. |
| Numeric.ParseNumberShape | backend/main.py:51 | Text that coerces holds only digits, at most one `.`, and a sign only in front. So `12abc`, `1.2.3` and `1e3` do not coerce. |
| Spreadsheet.ColumnsOf | backend/main.py:60 | The columns of `pd.DataFrame(records)` are every key of every record, and nothing else. |
| Spreadsheet.Records | backend/main.py:63 | `to_dict('records')` gives one record per row, in order, and each record has every column of the frame. |
| Spreadsheet.FromRecords | backend/main.py:60 | The frame has one row per record and every row has all columns. A key a record lacks is a missing cell. |
| Spreadsheet.CleanHeaders | backend/main.py:37-39 | The columns become their normal forms and the number of rows is kept. Each row keeps every cell under the normalised name. |
| Spreadsheet.CleanHeadersNoSpace | backend/main.py:37-39 | No cleaned header contains a space. |
| Spreadsheet.CleanHeadersIdempotent | backend/main.py:37-39 | Cleaning already-clean headers leaves the frame as it is, and the cleaned names stay distinct. |
| Spreadsheet.ToNumeric | backend/main.py:51 | A number coerces to itself. A missing cell and `''` coerce to NaN. |
| Spreadsheet.CoerceOrZero | backend/main.py:51 | `to_numeric(...).fillna(0)` keeps a number. A missing cell, or text without a digit, becomes 0. |
| Spreadsheet.IsLowStock | backend/main.py:54 | `to_numeric(stock) < 10` holds for a number exactly below 10. A missing cell, or text without a digit, is never low. |
| Spreadsheet.FractionalStock | backend/main.py:49-54 | Stock `9.5` given as text raises the alert, and `9.5` as an amount coerces to 9.5. |
| Spreadsheet.StockAtThreshold | backend/main.py:54 | The comparison is strict: stock `10.0` does not raise the alert. |
| Spreadsheet.FillKeepsNumeric | backend/main.py:46-54 | Filling a missing cell with `''` does not change what the cell coerces to, its 0-default, or its low-stock comparison. |
| Spreadsheet.FillNa | backend/main.py:46 | `fillna('')` keeps the columns and the rows, and fills each cell of each row. |
| Spreadsheet.ApplyBusinessRules | backend/main.py:41-56 | The rules keep the number of rows. They add `low_stock_alert` exactly for `inventory` with a `stock` column, and otherwise keep the columns. Each row is the filled row with the category's rule applied. |
| Spreadsheet.RulesOnRow | backend/main.py:46-54 | On one row, every missing cell becomes `''` and no cell stays missing. In `financial`, `amount` becomes the parsed number or 0. In `inventory` with `stock`, `low_stock_alert` is true exactly when stock parses below 10. Every other cell is only filled. Only the inventory rule adds a column. |
| Spreadsheet.Process | backend/main.py:58-63 | `process` returns exactly as many records as it receives. |
| Spreadsheet.ProcessAt | backend/main.py:58-63 | The i-th output record is the conversion of the i-th input record, widened to the table's columns. |
| Spreadsheet.ProcessIsRowwise | backend/main.py:58-63 | The frame pipeline of `process` and its record-by-record form agree on every input. |
| Spreadsheet.ProcessShape | backend/main.py:58-63 | Every output record has every normalised input column (plus `low_stock_alert` for inventory with `stock`), and none of its cells is missing. |
| Spreadsheet.ProcessCoercesAmount | backend/main.py:49-63 | A raw column whose name normalises to `amount` (such as `" Amount"`) is the one the financial rule coerces. |
| Spreadsheet.ProcessFlagsLowStock | backend/main.py:52-63 | Under whatever raw header normalises to `stock`, the alert is true exactly when the record's stock parses below 10. A record lacking the key gets false. |
| Spreadsheet.ProcessOtherCategory | backend/main.py:45-63 | Outside `financial` and `inventory`, the output has exactly the normalised columns. Each cell is the input cell, filled. |
| TaskStore.OptionalStr | backend/main.py:108 | An absent text is stored as null and a present one as that text. |
| TaskStore.TaskRecord | backend/main.py:95-111 | A new task is `processing` and not notified, and has neither a count nor an error. It carries the request's name, user, category and type. A side file records its custom name; a main file does not. `expiryDate` is recorded exactly for a side file with a non-empty date. |
| TaskStore.TaskRecordFields | backend/main.py:95-114 | The stored task document has the seven base fields, plus `customName` exactly for a side file (null when absent), plus `expiryDate` exactly when it is given and non-empty. |
| TaskStore.Fields | backend/main.py:133-139 | A written document holds the record's cells and the four tags. The tags win over record columns of the same name. |
| TaskStore.WrittenCount | backend/main.py:131 | A run writes all its converted records when there are at most 400, and exactly 400 otherwise. |
| TaskStore.Batch | backend/main.py:129-139 | The batch stages exactly the ids from `start` to `start + count - 1`. |
| TaskStore.BatchAt | backend/main.py:129-139 | The document under id `start + i` is the i-th converted record, tagged. |
| TaskStore.BatchSize | backend/main.py:129-139 | A batch holds one document per staged record, with no id reused. |
| TaskStore.WrittenRecords | backend/main.py:129-141 | A run writes at most 400 documents, and all its records when there are at most 400. The i-th document stores the i-th record's cells with `sourceFileId` equal to the task id and the request's `category` and `customName`. |
| TaskStore.BatchFromTask | backend/main.py:133-136 | Every document a run writes refers to that run's task. |
| TaskStore.RunReport | backend/main.py:153-173 | A run stores nothing exactly when creating the task failed. It finishes exactly when the status update went through, and then has notified exactly when nothing failed. Otherwise it logs the exception's text for the task. |
| TaskStore.Outcome | backend/main.py:144-173 | A stored task never ends `processing`. It ends `completed` exactly when the status update went through. Then it has the uncapped record count and `notificationSent` true, even if the notification later failed. Otherwise it ends `error` with the exception's text. The request's fields are kept either way. |
| TaskStore.CompletedMerges | backend/main.py:144-148 | The completion update merges `status`, `recordCount` and `notificationSent` into the stored fields and leaves the rest as they were. |
| TaskStore.ErrorMerges | backend/main.py:168-173 | The error update merges `status` and `errorMessage` into the stored fields and leaves the rest as they were. |
| TaskStore.Matching | backend/main.py:194 | The `app_data` query returns exactly the documents whose stored `sourceFileId` field is the task id. |
| TaskStore.MatchingBySource | backend/main.py:194 | A document matches the query exactly when the task that wrote it is the task asked for. A record's own `sourceFileId` column cannot make it match another task, because the tag overwrites that column. |
| TaskStore.DeleteMatching | backend/main.py:193-197 | Deleting every document the query returned leaves exactly the documents of other tasks, unchanged. |
| TaskStore.DeleteUndoesBatch | backend/main.py:129-197 | Deleting a task right after its run committed gives back `app_data` as it was before the run. |
| TaskStore.Firestore.Convert | backend/main.py:125-126 | Step C: `process` on the parsed rows equals the record-by-record conversion. |
| TaskStore.Firestore.WriteBatch | backend/main.py:129-139 | The write loop draws one fresh id per record and stages exactly `Batch` of the first `count` records. It writes nothing yet. |
| TaskStore.Firestore.Commit | backend/main.py:141 | `batch.commit()` adds every staged document to `app_data` at once and touches no task. |
| TaskStore.Firestore.Conclude | backend/main.py:144-166 | The status update gives the task its `Outcome`; a failing notification is only reported. The report and `app_data` follow from the failure step. |
| TaskStore.Firestore.SaveResults | backend/main.py:128-173 | A commit failure writes nothing and marks the task failed. Later, the batch of at most 400 records is in `app_data` and the task has its `Outcome`. |
| TaskStore.Firestore.RunStoredTask | backend/main.py:114-173 | Once the task is stored, a failure before the conversion marks it failed and writes nothing. Otherwise the run ends with the task at its `Outcome` and `app_data` as `SavedData` says. |
| TaskStore.Firestore.ProcessFileTask | backend/main.py:84-177 | A failure while creating the task stores nothing. Otherwise exactly one new task is stored, with its `Outcome`. `app_data` gains the tagged batch exactly when the run got past the commit. The store's invariant is kept. |
| TaskStore.Firestore.StageDeletes | backend/main.py:193-196 | The loop over the query stages every returned document for deletion, and nothing else. |
| TaskStore.Firestore.DeleteFileTask | backend/main.py:179-205 | An unknown task, or a failing read, changes nothing. A failing commit changes nothing. A failure deleting the task leaves its documents removed. Otherwise exactly the task's documents and then the task are removed, and every other task and document is kept. |

Three definitions have no row because they only compose members that do, and the rows above state what they do:
- `Headers.Normalize` (`backend/main.py:38`) is `Strip`, then `Lower`, then `Underscore`. `NormalizeNoSpace` and `NormalizeIdempotent` state its properties.
- `Spreadsheet.RuleRow` (`backend/main.py:49-54`) picks the category's rule for one row. `RulesOnRow` and `ApplyBusinessRules` state its effect.
- `TaskStore.TaskFields` (`backend/main.py:95-109`) lays a task out as stored fields. `TaskRecordFields`, `CompletedMerges` and `ErrorMerges` state its content and its updates.

## Left out

- Firebase initialisation, credentials and environment lookup: configuration and I/O.
- The real Firestore, Storage and messaging clients. The store is an in-memory class, document ids are natural numbers from a counter, and server timestamps are an opaque value.
- File download, temp files and the CSV/Excel parsing by pandas: the parsed records are an input. The `.csv` suffix dispatch only chooses a parser.
- The FastAPI endpoints and background scheduling: asynchronous plumbing around the two tasks.
- The notification's content: it changes no stored state, so only whether it failed is modelled.
- Floating point and NaN. Numbers are exact reals and "did not parse" is `None`. The parse accepts optionally signed decimal literals (`12`, `-3.5`, `.5`). Exponents, `inf`, `nan` and surrounding whitespace are not accepted.
- Spreadsheet.Process: requires that no two raw headers normalise to the same name. pandas would produce duplicate columns there, and the rules would then act on a frame, not a column. The requirement only applies to runs that reach the conversion.
- Headers.LowerChars: lower-cases ASCII letters only, not the rest of Unicode.
- Column order within a frame is not modelled: columns are a set and records are maps.
- Storage cleanup on deletion and any ownership check: the code does neither. `userId` of a deletion is carried and unused.
- TaskStore.Firestore.ProcessFileTask: a failure while creating the task is modelled as a run that stores nothing. In the code, the error handler then updates a task that does not exist and raises again.
- Each run fails at one step at most. A failure of the error update itself is not modelled.
- Excel/CSV type inference (which cells arrive as numbers) is part of the parsed input, not modelled.
- Column labels are always text. Excel headers that pandas reads as numbers or dates cannot be represented, and neither can the `.str` accessor error they can cause in `clean_headers`.
- An empty table follows pandas before 2.0: `process` returns no records and the run completes with a count of 0. From pandas 2.0, a frame built from no records has non-text column labels and `clean_headers` raises. A run under that version is the run whose failure input is the conversion step.
- The front-end file-block upload state machine is not part of this model. Its source is not among the files modelled.

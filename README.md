# support-workflow synchronisation engine, in Dafny

This project models the synchronisation engine of `support-workflow`. The
engine copies two kinds of data from a support portal into a Feishu Bitable
(an online spreadsheet with typed columns):

- **Subscription rows** (`MaintenanceSync`). The engine fetches the
  subscriptions of one product, page by page. Each record gets its `version`
  and `form1prop11` elements fitted in. The engine then looks up the
  company's row. It creates the row when none exists, updates it when one of
  the nine tracked fields differs, and otherwise writes nothing. At the end
  it posts a "sync done" message to a chat webhook, with up to five attempts.
- **Maintenance log** (`RecordSync`). The engine fetches the log entries.
  The page size is 5 on the task's very first request and 1000 after that.
  The run resumes from a cursor kept in a durable cache and stores every
  page's marker there. Each entry is merged into the 维护记录 column of its
  company's row. That column holds items separated by `"\n----------\n"`,
  and an item is recognised by the integer before its first `-`.
- **Durable key-value cache with expiry** (`Store`). A class over a map from
  key to value and expiry, with the clock as a parameter.
- **Web front door** (`FrontDoor`). `POST /companies` gives a new company the
  next serial: one more than the largest serial the Bitable returns. It
  writes the row `"<serial>-<company>"` and announces the support group to a
  chat webhook, again with up to five attempts.

`Text` models the Go library functions the engine relies on:
`strings.Split`, `strconv.Atoi` (with its 64-bit range check) and
`strconv.Itoa`. `Remote` holds the row layout, the oracle answers, the
output trace and the portal's pagination protocol.

The engine's remote calls are oracle inputs:

- portal pages are a finite list of answers;
- the Bitable search and write answers, and the webhook answers, are
  functions from the record or attempt index to the answer.

Everything the engine sends is an output trace of `Call`s. When the page
list runs out before the end marker -1, the run is `Unfinished`; the source
would go on requesting pages.

## Model

| member | source | states |
|---|---|---|
| `Text.Split` | pkg/workflow/task_record_to_feishu.go:29 | `strings.Split`: at least one piece, the pieces joined with the separator give the input back, and no piece contains the separator |
| `Text.SplitJoin` | pkg/workflow/task_record_to_feishu.go:154 | splitting the join of separable pieces gives the same pieces back |
| `Text.Before` | pkg/workflow/task_record_to_feishu.go:155 | `strings.Split(s, sep)[0]`: a prefix of `s` with no `sep` in it, followed by `sep` unless it is all of `s` |
| `Text.Atoi` | pkg/workflow/task_record_to_feishu.go:34 | `strconv.Atoi`: a successful read is an int64; a failed read gives 0 or an int64 bound, and the bound is MinInt64 exactly when the text starts with `-` |
| `Text.AtoiItoa` | pkg/workflow/task_maintenance_to_feishu.go:194 | every int64 written by `strconv.Itoa` reads back with `strconv.Atoi` as itself |
| `Text.ItoaInjective` | pkg/workflow/task_maintenance_to_feishu.go:194 | different int64 values never print as the same text |
| `Remote.AttemptsFrom` | pkg/workflow/task_maintenance_to_feishu.go:262-270 | a five-attempt webhook loop makes between 1 and 5 POSTs, none but the last delivered, and it stops early only right after a delivered POST |
| `Remote.NeverDeliveredMeansFivePosts` | pkg/workflow/http_server.go:196-204 | an endpoint that never answers 200 receives exactly five POSTs |
| `Remote.WriteCountAppend` | pkg/workflow/task_maintenance_to_feishu.go:237-243 | the creates and updates of two traces add up |
| `Remote.MarkerParam` | pkg/workflow/task_record_to_feishu.go:102-104 | the `&marker=` parameter is sent exactly when the marker is non-zero, and then carries the marker |
| `Remote.StopIndex` | pkg/workflow/task_maintenance_to_feishu.go:118-134 | the fetch loop stops at the first failed page or the first page with marker -1; every page before it was read and had another marker |
| `Remote.FetchAll` | pkg/workflow/task_maintenance_to_feishu.go:118-135 | a fetch is complete exactly when the stopping page was read (and its marker is -1), and is an error exactly when the stopping page failed |
| `Remote.ConcatSnoc` | pkg/workflow/task_maintenance_to_feishu.go:129 | reading one more page appends its data after the data read so far |
| `Remote.ThreePagesExample` | pkg/workflow/task_maintenance_to_feishu.go:118-135 | markers 7, 12, -1: the fetch is complete with the three pages' data in order, and exactly three pages are read |
| `Remote.Placeholder` | pkg/workflow/task_maintenance_to_feishu.go:305-314 | the made-up row has no record id, serial 0, and only `[{"", company}]` as 客户全称 |
| `Remote.GetFeishuRecord` | pkg/workflow/task_maintenance_to_feishu.go:274-317 | a failed search is an error, no hit gives the placeholder, and otherwise the first hit is returned |
| `Store.ExpirationAt` | pkg/utils/cache.go:54-56 | expiration 0 is stored as 0 (never expires); any other is stored as now + expiration |
| `Store.Cache.constructor` | pkg/utils/cache.go:25-44 | opening the cache keeps every entry the database file already holds (none for a fresh file) |
| `Store.Cache.Set` | pkg/utils/cache.go:46-71 | a nil pointer fails and leaves the bucket unchanged; otherwise the key is overwritten with the value and its expiry, and no other key changes |
| `Store.Cache.Get` | pkg/utils/cache.go:73-102 | a missing key gives no error and an untouched result; an expired entry (expiry > 0 and now > expiry) is deleted with no error; otherwise the stored value is decoded, or an error is returned |
| `Store.Cache.Delete` | pkg/utils/cache.go:104-108 | the key is removed and nothing else changes |
| `Store.Cache.Flush` | pkg/utils/cache.go:114-122 | the bucket is empty afterwards |
| `Store.SetThenGet` | pkg/utils/cache.go:46-102 | a `Get` after a `Set` of the same key, before the entry expires, yields the stored value with no error |
| `Store.SetThenGetExpired` | pkg/utils/cache.go:86-88 | a `Get` after the expiry has passed deletes the key and leaves the result untouched |
| `Store.SetLeavesOtherKeys` | pkg/utils/cache.go:68-70 | a `Set` of one key does not change what `Get` returns for another key |
| `Store.DeleteThenGet` | pkg/utils/cache.go:104-108 | after a `Delete`, a `Get` of that key finds nothing |
| `MaintenanceSync.Same` | pkg/workflow/task_maintenance_to_feishu.go:62-91 | true exactly when the nine tracked fields are equal; ID, serial, record id, deploy architecture and service type are ignored |
| `MaintenanceSync.SameIsEquivalence` | pkg/workflow/task_maintenance_to_feishu.go:62-91 | `Same` is reflexive, symmetric and transitive |
| `MaintenanceSync.LastValue` | pkg/workflow/task_maintenance_to_feishu.go:94-100 | the value of the last element with the title, or the old value when no element has it |
| `MaintenanceSync.FitData` | pkg/workflow/task_maintenance_to_feishu.go:93-101 | the loop leaves Version = the last "version" value and DeployArch = the last "form1prop11" value (each unchanged when absent), and every other field unchanged |
| `MaintenanceSync.RowToMaintenance` | pkg/workflow/task_maintenance_to_feishu.go:144-167 | the record read from a row carries its record id and serial, the `Atoi` value of 规格, and the first 系统版本 text or "" |
| `MaintenanceSync.NonNumericAmountIsZero` | pkg/workflow/task_maintenance_to_feishu.go:145 | 规格 text that is not a number reads as amount 0 |
| `MaintenanceSync.GetFeishuMaintenance` | pkg/workflow/task_maintenance_to_feishu.go:138-169 | a failed search is an error; no hit gives a record with no record id, serial 0, the company name, version "" and amount 0 |
| `MaintenanceSync.SyncFields` | pkg/workflow/task_maintenance_to_feishu.go:184-198 | the written columns: 最终客户名称 = `"<serial>-<abbreviation>"`, 客户全称, 规格 = `Itoa(amount)`, and never 编号 nor 维护记录 |
| `MaintenanceSync.UpdateOrCreate` | pkg/workflow/task_maintenance_to_feishu.go:171-230 | no company name means no call; otherwise the lookup comes first and at most one write follows; a lookup error means no write; the placeholder leads to one create with serial 0; an update always names a non-empty record id |
| `MaintenanceSync.ReconcileWritesAtMostOnce` | pkg/workflow/task_maintenance_to_feishu.go:199-228 | reconciling one record makes at most one create or update, and never before the lookup |
| `MaintenanceSync.MirroredRowReadsBack` | pkg/workflow/task_maintenance_to_feishu.go:144-167 | a row holding what the sync wrote for a record reads back with the same tracked fields |
| `MaintenanceSync.SecondPassWritesNothing` | pkg/workflow/task_maintenance_to_feishu.go:212 | once the row mirrors the record, reconciling it again makes only the lookup (idempotence) |
| `MaintenanceSync.ChangedRecordUpdatesOnce` | pkg/workflow/task_maintenance_to_feishu.go:212-227 | when a tracked field changed, reconciling makes exactly one update, to that row's record id, with the full column set |
| `MaintenanceSync.Outcomes` | pkg/workflow/task_maintenance_to_feishu.go:237-243 | record i is reconciled after FitData, with the i-th lookup and write answers |
| `MaintenanceSync.TallyWritesAtMostOncePerStep` | pkg/workflow/task_maintenance_to_feishu.go:237-243 | steps that each write at most once add up to at most one write per step |
| `MaintenanceSync.PassWritesAtMostOncePerRecord` | pkg/workflow/task_maintenance_to_feishu.go:237-243 | a whole pass makes at most one write per fetched record |
| `MaintenanceSync.QuietTally` | pkg/workflow/task_maintenance_to_feishu.go:237-243 | steps that write nothing and fail nothing add up to a pass with no write, no error and no panic |
| `MaintenanceSync.SyncedRecordIsQuiet` | pkg/workflow/task_maintenance_to_feishu.go:212 | a record whose row already mirrors it is reconciled with no write and no error |
| `MaintenanceSync.SyncedPassWritesNothing` | pkg/workflow/task_maintenance_to_feishu.go:237-243 | a pass over records whose rows already mirror them writes nothing and logs no error |
| `MaintenanceSync.PanicEndsPass` | pkg/workflow/task_maintenance_to_feishu.go:162 | once a step panics, the pass takes no further step |
| `MaintenanceSync.SendMsgToWecom` | pkg/workflow/task_maintenance_to_feishu.go:248-272 | as many POSTs of the "sync done" text as the five-attempt loop makes; it is fatal exactly when the last POST was not delivered, and then there were five |
| `MaintenanceSync.ReconcileAll` | pkg/workflow/task_maintenance_to_feishu.go:237-243 | the loop's calls, errors and panic are those of the pass over the fetched records |
| `MaintenanceSync.MaintenanceToFeishuTask.constructor` | pkg/workflow/task_maintenance_to_feishu.go:108-112 | product name and page size as given, no page read yet |
| `MaintenanceSync.MaintenanceToFeishuTask.GetMaintenances` | pkg/workflow/task_maintenance_to_feishu.go:114-136 | the pages' data concatenated in request order, up to the page with marker -1; a fetch error returns nothing; request i has page size `maxValue` and the previous page's marker unless it is 0 (none on the first); the counter grows by one per page read |
| `MaintenanceSync.MaintenanceToFeishuTask.Execute` | pkg/workflow/task_maintenance_to_feishu.go:232-246 | a fetch error returns with no call; otherwise every record is reconciled after FitData and per-record errors are only logged, then the "sync done" message is posted, and a fifth failed POST ends the process |
| `RecordSync.Entry` | pkg/workflow/task_record_to_feishu.go:61-68 | `MaintenanceRecord.String`: the text starts with the id and `-[` and ends with `]`, and for a non-negative id its text before the first `-` is the id |
| `RecordSync.HeadShape` | pkg/workflow/task_record_to_feishu.go:155 | an item's text before its first `-` is a dash-free prefix of it, ending at a `-` or at the end |
| `RecordSync.HeadOfJoined` | pkg/workflow/task_record_to_feishu.go:155 | the text before the first `-` of `a + "-" + b`, for a dash-free `a`, is `a` |
| `RecordSync.HeadIsBefore` | pkg/workflow/task_record_to_feishu.go:155 | the item's id text is exactly `strings.Split(item, "-")[0]` |
| `RecordSync.EntryIdRoundTrip` | pkg/workflow/task_record_to_feishu.go:61-68 | the id in front of an entry's text reads back as the entry's id |
| `RecordSync.Kept` | pkg/workflow/task_record_to_feishu.go:154-160 | the items whose id reads, in order, never more than there are |
| `RecordSync.KeptMembers` | pkg/workflow/task_record_to_feishu.go:156-160 | an item is kept exactly when it is in the column and its id reads as an integer |
| `RecordSync.KeptOfKept` | pkg/workflow/task_record_to_feishu.go:156-160 | when every item's id reads, nothing is dropped |
| `RecordSync.IdsOfMembers` | pkg/workflow/task_record_to_feishu.go:29-39 | an id is collected exactly when some item has a `-` and its text before the first `-` reads as that id |
| `RecordSync.MaintenanceRecordManage.constructor` | pkg/workflow/task_record_to_feishu.go:23-26 | no id collected yet |
| `RecordSync.MaintenanceRecordManage.Parse` | pkg/workflow/task_record_to_feishu.go:28-40 | the id set grows by the ids of the items that have a `-` and whose text before it reads as an integer; no id is removed |
| `RecordSync.MaintenanceRecordManage.Exist` | pkg/workflow/task_record_to_feishu.go:42-45 | true exactly when the id was collected |
| `RecordSync.ParsedIdsAreKept` | pkg/workflow/task_record_to_feishu.go:28-40 | every id `Parse` collects belongs to an item the merge keeps |
| `RecordSync.ParseSkipsItemsWithoutDash` | pkg/workflow/task_record_to_feishu.go:30-33 | the item "5" is kept by the merge, whose `Split` needs no `-`, but `Parse` skips it |
| `RecordSync.MergeRecords` | pkg/workflow/task_record_to_feishu.go:146-167 | an empty column gives `[entry]`; otherwise the loop gives the kept items with the entry inserted right after the first kept item unless that item has the entry's id |
| `RecordSync.MergeKeepsItemsAddsAtMostOne` | pkg/workflow/task_record_to_feishu.go:154-166 | the merge keeps every recognised item in order, unchanged, and adds the entry at most once, right after the first kept item exactly when that item has another id |
| `RecordSync.UnrecognisedColumnIsErased` | pkg/workflow/task_record_to_feishu.go:154-175 | a non-empty column with no recognised item merges to no item, and the column is written back as "" |
| `RecordSync.UnrecognisedColumnExample` | pkg/workflow/task_record_to_feishu.go:154-166 | the column "abc" merges to no item, so the new entry is lost |
| `RecordSync.AsWrittenMergeDuplicates` | pkg/workflow/task_record_to_feishu.go:154-166 | with a first item of another id, merging the entry twice leaves it in the column twice |
| `RecordSync.MergeOfJoin` | pkg/workflow/task_record_to_feishu.go:154-166 | the merge of a column joined from separable items works on those items |
| `RecordSync.AsWrittenMergeExample` | pkg/workflow/task_record_to_feishu.go:154-166 | merging entry "2-b" into "1-a" gives ["1-a", "2-b"], and merging it again gives ["1-a", "2-b", "2-b"] |
| `RecordSync.CorrectedMergeRecordsEntry` | pkg/workflow/task_record_to_feishu.go:154-166 | the corrected merge keeps every recognised item in order, adds the entry exactly when its id is new, appending it right after the kept items, and afterwards the column holds an item with the entry's id |
| `RecordSync.CorrectedMergeIdempotent` | pkg/workflow/task_record_to_feishu.go:154-175 | the corrected merge of the same entry into the text it wrote gives the same items again |
| `RecordSync.ReadBack` | pkg/workflow/task_record_to_feishu.go:154-175 | writing recognised separable items and splitting the text again gives the same items |
| `RecordSync.FeishuRecordTable` | pkg/workflow/task_record_to_feishu.go:122-137 | a failed lookup is an error; no hit gives an empty record id and empty content |
| `RecordSync.GetFeishuMaintenanceRecord` | pkg/workflow/task_record_to_feishu.go:122-137 | the loop concatenates the row's 维护记录 texts with no separator and copies the record id |
| `RecordSync.Refresh` | pkg/workflow/task_record_to_feishu.go:139-189 | the lookup comes first; a failed lookup is the only case with no write; otherwise exactly one update of 维护记录 alone, to the looked-up record id, which fails exactly when the write does |
| `RecordSync.NewCompanyUpdatesEmptyRowId` | pkg/workflow/task_record_to_feishu.go:148-149 | a company without a row gets an update of the empty record id whose column is the entry alone |
| `RecordSync.UpdateDataToFeishu` | pkg/workflow/task_record_to_feishu.go:139-189 | the calls and the error of one entry's merge are those `Refresh` describes |
| `RecordSync.LogTallyWritesAtMostOncePerStep` | pkg/workflow/task_record_to_feishu.go:196-201 | steps that each write at most once add up to at most one write per step |
| `RecordSync.Refreshes` | pkg/workflow/task_record_to_feishu.go:196-201 | entry i is merged with its formatted date and the i-th lookup and write answers |
| `RecordSync.RefreshWritesAtMostOnce` | pkg/workflow/task_record_to_feishu.go:139-189 | merging one entry makes at most one write |
| `RecordSync.LogPassWritesAtMostOncePerEntry` | pkg/workflow/task_record_to_feishu.go:196-201 | a run makes at most one write per fetched entry |
| `RecordSync.MaxValueAt` | pkg/workflow/task_record_to_feishu.go:79-86 | the page size is 5 exactly when no page was read yet, and 1000 exactly otherwise |
| `RecordSync.LogRequestsSnoc` | pkg/workflow/task_record_to_feishu.go:98-104 | one more request appends its page size and marker |
| `RecordSync.CompletedRunLeavesEndMarker` | pkg/workflow/task_record_to_feishu.go:111-118 | after a complete run the cursor is -1, so the next run starts from -1 and sends `&marker=-1` |
| `RecordSync.FailedRunKeepsAdvancedCursor` | pkg/workflow/task_record_to_feishu.go:106-112 | a run that fails after reading pages returns nothing, yet leaves the cursor at the last page read |
| `RecordSync.AdvancedCursorExample` | pkg/workflow/task_record_to_feishu.go:106-112 | one page with marker 7 and then a failed request: the run returns nothing, yet the next run starts from 7 |
| `RecordSync.FailedRunRetriesFromStart` | pkg/workflow/task_record_to_feishu.go:106-118 | with the cursor committed only when the fetch completes, a failed run leaves the next run's start marker unchanged, and a complete run leaves -1 |
| `RecordSync.RefreshAll` | pkg/workflow/task_record_to_feishu.go:196-201 | the loop's calls and errors are those of merging each fetched entry in turn |
| `RecordSync.MaintenanceRecordToFeishuTask.constructor` | pkg/workflow/task_record_to_feishu.go:75-77 | no page read yet |
| `RecordSync.MaintenanceRecordToFeishuTask.GetMaxValue` | pkg/workflow/task_record_to_feishu.go:79-86 | 5 before the first page is read, 1000 afterwards |
| `RecordSync.MaintenanceRecordToFeishuTask.GetMaintenanceRecords` | pkg/workflow/task_record_to_feishu.go:88-120 | starts from the cached cursor, or 0 when it is missing or unreadable; request i has page size 5 or 1000 and the previous marker unless it is 0; each page's marker is stored before the -1 test; the result is the concatenation of the pages, or nothing on a fetch error |
| `RecordSync.MaintenanceRecordToFeishuTask.FetchPages` | pkg/workflow/task_record_to_feishu.go:98-118 | the page loop: the counter grows per page read, and the cache holds the marker of the last page read |
| `RecordSync.MaintenanceRecordToFeishuTask.Execute` | pkg/workflow/task_record_to_feishu.go:191-203 | a fetch error returns with no call; otherwise every fetched entry is merged in turn, and per-entry errors are only logged |
| `FrontDoor.MaxSerial` | pkg/workflow/http_server.go:130-136 | the largest serial is at least 0, at least every serial returned, and 0 or one of them |
| `FrontDoor.GetMaxSerialFromFeishu` | pkg/workflow/http_server.go:99-137 | one search of ten rows sorted by 编号 descending; a failed search gives 0 and an error; otherwise the loop yields `MaxSerial` of the rows |
| `FrontDoor.SortedPageHoldsMaximum` | pkg/workflow/http_server.go:105-114 | when the table is sorted by serial descending and the page is its first rows, max + 1 is larger than every serial in the table |
| `FrontDoor.NewRow` | pkg/workflow/http_server.go:152-156 | the new row writes exactly 最终客户名称, 编号 and 客户全称 |
| `FrontDoor.FullNameParsesBack` | pkg/workflow/http_server.go:147-148 | the text before the first `-` of `"<serial>-<company>"` is the serial, and reads back as it |
| `FrontDoor.FullNameInjective` | pkg/workflow/http_server.go:147-148 | two full names are equal only for the same serial and the same company name |
| `FrontDoor.InsertRecordToFeishu` | pkg/workflow/http_server.go:139-168 | a failed serial query returns an error before any create; otherwise one create with serial = max + 1 and full name `"<serial>-<company>"`, which fails exactly when the write does |
| `FrontDoor.WebhookResponses` | pkg/workflow/http_server.go:196-205 | the 200 "提交成功" is always written last; it comes after a 400 exactly when none of the five attempts was delivered |
| `FrontDoor.AnnounceGroup` | pkg/workflow/http_server.go:196-205 | as many POSTs of the message as the five-attempt loop makes, stopping at the first 200, and the responses `WebhookResponses` gives |
| `FrontDoor.CreateCompany` | pkg/workflow/http_server.go:170-206 | a body that does not bind gets a 400 and no call; a failed insert gets a 400 and no POST; otherwise the group message, mentioning the comma-split phone list, is POSTed as the retry loop says |

## Left out

- The Lark/Feishu SDK, the portal HTTP client (`pkg/utils/http.go`) and the webhook client are not modelled. Their answers are oracle inputs, and JSON encoding and decoding fold into those answers.
- Configuration loading, the scheduler (`pkg/workflow/tasks.go`), process start-up and shutdown, and the superseded `task_support_to_feishu.go` are not part of this model. Configuration values such as the phone list and the product name are parameters.
- Dates are not modelled. The date text of a log entry is a parameter (`format`), and so is the timestamp of the "sync done" message.
- Cache internals are not modelled: bbolt transactions, file locking, `NewCache`'s file errors (the entries the file already holds are the constructor's parameter), `Close`, and the JSON and reflection round-trip. A stored value is an integer, a text or a nil pointer, and "decodes" means it has the same kind as the target. The clock is a parameter `now`.
- Integers are unbounded. Go's 64-bit wrap-around in `serial + 1`, in `now + expiration` and in the page counter is not modelled. `strconv.Atoi` does model its int64 range check.
- Page markers decode from JSON as Go `int`. Their float64 intermediate is not modelled.
- An endless portal is not modelled: a page list that runs out before marker -1 gives `Unfinished`, where the source would keep requesting pages.
- `log.Fatalf` after the fifth failed "sync done" POST is an `Exited` outcome. The process exit itself is not modelled.
- The Gin plumbing is not modelled: routing, templates, static files, `index`, `Start` and `Stop`. The error texts inside `{"error": ...}` bodies are also left out; only which error it is is modelled.
- The returned `*AppTableRecord` of `InsertRecordToFeishu` is not modelled, because `createCompany` discards it.
- The `records` field of `MaintenanceRecordManage` is not modelled, because nothing reads or writes it.
- The debug print for one particular company inside the merge is not modelled.

## Findings

| source | as written | input that shows it | evidently intended | confidence | as-written member | corrected member |
|---|---|---|---|---|---|---|
| pkg/workflow/task_record_to_feishu.go:154-166 | the entry is inserted after the first recognised item, and only the ids seen so far are checked, so an entry already further down the column is added again | column "1-a" + separator + "2-b", entry "2-b" with id 2: the merge gives ["1-a", "2-b", "2-b"] | add the entry once, only when its id is not in the column, so that merging again changes nothing | not executed | `RecordSync.AsWrittenMergeExample` | `RecordSync.CorrectedMergeIdempotent` |
| pkg/workflow/task_record_to_feishu.go:154-175 | when no item of a non-empty column has a numeric id, nothing is kept and the entry is never added, so the column is overwritten with "" | column "abc": the merge gives [] and the update writes "" | drop the unrecognised items and record the new entry | not executed | `RecordSync.UnrecognisedColumnExample` | `RecordSync.CorrectedMergeRecordsEntry` |
| pkg/workflow/task_record_to_feishu.go:106-112 | each page's marker is stored in the cache as soon as the page is read, before any entry is merged; when a later request fails the run returns nothing | a page with entry e and marker 7, then a failed request: e is never merged, and the next run starts from 7 | store the cursor only once the pages' entries are handed on to the merge, so a failed run is retried from where it started | not executed | `RecordSync.AdvancedCursorExample` | `RecordSync.FailedRunRetriesFromStart` |

`RecordSync.Refresh` and the log task's `Execute` use the merge and the
cursor as written, because they model what the task does.
`RecordSync.CorrectedMerge` is the intended merge and
`RecordSync.CommittedCursorAfter` the intended cursor; the corrected lemmas
are proved about them.

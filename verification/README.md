# Admin backend data logic, in Dafny

This project models the data logic of the Flask admin backend in `backend/main.py`. The backend sits
over two MongoDB databases: a holidays calendar and the ledger of compression tasks of a file
compressor. The compressor stores its result files in GridFS, as `fs.files` metadata plus `fs.chunks`.
The model covers seven handlers:

- the holiday query (`GET /get_holidays`);
- the holiday upsert (`POST /update_holiday`);
- the compression statistics (`GET /admin/api/compression-stats`);
- the active-task feed (`GET /admin/api/active-tasks`);
- the paginated listing of completed files (`GET /admin/api/all-files`);
- the batch deletion of tasks with their result blobs (`POST /admin/api/batch-delete`);
- the system-health report (`GET /admin/api/system-health`).

The stores are in-memory state:

- The holidays are a map from `_id` to the record's other fields, in `Calendar.HolidayCalendar`.
- Tasks, blob metadata and blob chunks are three sequences of documents in collection order, in
  `Ledger.TaskLedger`. Its invariant is that `_id` is unique in `tasks` and in `fs.files`; chunks carry
  no id of their own, only the `files_id` of their blob.

The handlers that change the stores are methods:

- `Calendar.HolidayCalendar.Update` rewrites the holiday map.
- `Ledger.TaskLedger.BatchDelete` runs a loop that removes blob metadata, then chunks, then its task
  record, one matched task at a time.

The other handlers are functions of the state. Two of them build their reply in a loop or field by
field, as the source does: `Ledger.TaskLedger.AllFiles` and `Health.SystemHealth`. Each such method
is proved equal to a specification function, and the properties are proved about those functions.

Modules:

- `Common`: field values, the 403/400/500 replies, filtering and removal over sequences, and decimal
  rendering.
- `Calendar`: `zfill`, the month prefix, the upsert merge and its reply.
- `Tasks`: the status enum with its stored literals (`等待中`, `處理中`, `完成`, `失敗`), ObjectId
  parsing, the newest-first sort, the listing order that breaks ties by `_id`, and the paging
  arithmetic (Python floor division).
- `Ledger`: a task ledger and its four admin endpoints.
- `Health`: probe outcomes, their classification and the composed report.

The admin-secret check is the boolean input `authorized`. The current time (`now`, local `midnight`)
and each probe's outcome are parameters.

Collections are sequences rather than maps because the source depends on order in four places:

- `find_one` and `delete_one` act on the first match;
- the `created_at` sort needs a tie order;
- the `$sum` over `fs.files` is a fold;
- the deletion loop visits the matched tasks in cursor order.

`Valid()` then keeps ids unique. Lemmas show that under this invariant `delete_one` by id is the same
as removing every document with that id.

## Model

| member | source | states |
|---|---|---|
| `Common.HttpStatus` | backend/main.py:109-134 | Unauthorized is answered 403, a bad request 400, any other failure 500, and nothing else |
| `Calendar.MonthPrefix` | backend/main.py:110 | the prefix is the year followed by the month padded to at least two characters, and for a digit month the padded part reads back as the month's value |
| `Calendar.ZFill` | backend/main.py:110 | `zfill(width)` pads to exactly `width` characters, and never shortens a longer string |
| `Calendar.ZFillKeepsValue` | backend/main.py:110 | zero-padding a digit string keeps its numeric value ("3" and "03" both mean 3) |
| `Calendar.MonthSpellings` | backend/main.py:110 | two spellings of the same month with one or two digits give the same query prefix |
| `Calendar.DateIdMatches` | backend/main.py:110-111 | for an 8-character `YYYYMMDD` id, the anchored pattern matches iff the id's year and month are the requested ones |
| `Calendar.HolidayCalendar.Query` | backend/main.py:107-112 | a missing or empty year or month gives 400 and no lookup; otherwise the result is exactly the stored records whose string `_id` starts with year + zfill(month, 2), unchanged |
| `Calendar.FieldsOf` | backend/main.py:123 | the `$set` document holds every field of the body except `_id`, with the body's values |
| `Calendar.Merge` | backend/main.py:124 | the upsert creates the record if absent and overwrites the given fields; fields not in the body keep their old values; no other record is added, removed or changed |
| `Calendar.ChangesIffStoreDiffers` | backend/main.py:124-127 | "created or a value changed" holds exactly when the collection differs after the upsert |
| `Calendar.ResubmitIsNoChange` | backend/main.py:124-127 | upserting the same data twice is idempotent, and the second submission changes nothing |
| `Calendar.UpsertReply` | backend/main.py:125-127 | the reply is "資料已成功儲存" iff the collection changed, and "資料無變動" iff it did not |
| `Calendar.Rejection` | backend/main.py:120-122 | a body `get_json()` cannot read is a 500; a falsy JSON value or an object without `_id` is a 400; a string containing `_id` or an array holding `"_id"` passes the test and then fails on `data['_id']` (500), any other string or array is a 400; a truthy number or `true` fails the `in` test itself (500); only an object with `_id` goes on to the upsert |
| `Calendar.HolidayCalendar.Update` | backend/main.py:120-127 | a rejected body gets its failure and leaves the store unchanged; an object with `_id` makes the store the merge, and the reply says whether it changed |
| `Calendar.UpsertReplyAsWritten` | backend/main.py:125-127 | the reply as written is "資料已成功儲存" exactly when a record is created under a truthy `_id` or an existing record's values change, and "資料無變動" otherwise |
| `Calendar.AsWrittenMissesFalsyCreation` | backend/main.py:125 | the reply as written differs from the intended one exactly when a record is created under a falsy `_id` |
| `Calendar.EmptyIdCreationReportsNoChange` | backend/main.py:125 | counterexample: creating `{"_id": "", "name": "x"}` in an empty calendar is answered "資料無變動" |
| `Tasks.ParseStatus` | backend/main.py:138-139 | reading a stored status literal gives a status whose literal is that string; the four known literals map to the four enum cases |
| `Tasks.ParseLabel` | backend/main.py:166 | a status read back from its own literal is the same status |
| `Tasks.CanonicalMatch` | backend/main.py:137-139 | the queries match the stored literal; on a status as it is read back, matching `完成`, `失敗`, `處理中` or `等待中` is being that status, and matching the `$in` list is being one of the four |
| `Tasks.ParseObjectId` | backend/main.py:241 | a 24-character text of hex digits of either case is accepted and yields its lower-case form; any other text is refused (the whitespace `bytes.fromhex` tolerates is under Left out) |
| `Tasks.ParseCanonicalId` | backend/main.py:205 | the `str()` form of an ObjectId parses back to the same id |
| `Tasks.ParseIds` | backend/main.py:241 | every text parses and the ids come out in order; otherwise the error names the first text that is not an id |
| `Tasks.TotalLength` | backend/main.py:142-143 | the `$sum` of blob lengths is at least each blob's length, and it is 0 exactly when every blob is empty |
| `Tasks.TotalLengthSplit` | backend/main.py:142-143 | the `$sum` of blob lengths splits between the blobs a predicate keeps and the ones it drops |
| `Tasks.BlobLength` | backend/main.py:203 | `find_one` by id gives the length of the first blob with that id, and 0 when none has it |
| `Tasks.FileSize` | backend/main.py:203-209 | a task with a missing or null `result_file_id` shows file size 0 |
| `Tasks.InsertNewestFirst` | backend/main.py:196 | inserting into a newest-first list keeps it newest first and adds exactly that task |
| `Tasks.SortNewestFirst` | backend/main.py:196 | `sort('created_at', -1)` gives a permutation of its input, ordered newest first |
| `Tasks.NewestFirstUnique` | backend/main.py:196 | when no two tasks of a sequence share a creation time, every newest-first permutation of it is that sequence |
| `Tasks.TiedOrdersRepeatAPage` | backend/main.py:192-196 | counterexample: for two tasks created at the same time both orders are newest first, and page 1 of one order with page 2 of the other serves the first task twice and the second never |
| `Tasks.InsertInListingOrder` | backend/main.py:196 | inserting into a list sorted by creation time (newest first) and then id keeps it sorted and adds exactly that task |
| `Tasks.SortListingOrder` | backend/main.py:196 | sorting by creation time, newest first, then by id gives a permutation of its input in that order |
| `Tasks.ListingOrderUnique` | backend/main.py:196 | tasks with distinct ids have only one order by creation time and id: two such orders of the same tasks are equal |
| `Tasks.FloorDiv` | backend/main.py:218 | Python's `//` rounds towards negative infinity for either sign of the divisor |
| `Tasks.TotalPages` | backend/main.py:218 | for a positive limit, `(total + limit - 1) // limit` is the ceiling of total / limit: non-negative, with (p − 1)·limit < total ≤ p·limit |
| `Tasks.Window` | backend/main.py:196 | `skip(k).limit(n)` returns the documents from position k on, at most n of them, in order |
| `Tasks.WindowNewestFirst` | backend/main.py:196 | skipping and limiting a newest-first cursor keeps it newest first |
| `Tasks.PagesArePrefix` | backend/main.py:186-196 | pages 1..p of size n, each cut from the same sorted sequence, are its first p·n documents: no gap and no overlap |
| `Tasks.AllPagesCoverListing` | backend/main.py:186-218 | walking pages 1..total_pages of one sorted sequence returns each of its documents exactly once |
| `Tasks.PagingExample` | backend/main.py:186-218 | with 120 listed tasks and limit 50, page 3 holds 20 tasks and there are 3 pages |
| `Ledger.Listing` | backend/main.py:192-196 | the listing holds exactly the completed compress tasks that have a `result_file_id` field, each as often as stored, newest first and then by id |
| `Ledger.ListingIsTheOrder` | backend/main.py:192-196 | with unique task ids, any order of the listable tasks by creation time and id is the listing: every page request sees the same sequence |
| `Ledger.ListingOrderForced` | backend/main.py:192-196 | when no two listable tasks share a creation time, any newest-first order of them is the listing, so the query as written also pages one fixed sequence |
| `Ledger.Cursor` | backend/main.py:192-196 | the cursor is the run of the listing starting at the skip: all the rest for limit 0, at most |limit| documents otherwise, and empty past the end |
| `Ledger.TotalCoversListing` | backend/main.py:189-196 | `total` counts completed compress tasks whether or not they have `result_file_id`, so it is at least the number the listing can show |
| `Ledger.ListingIsListable` | backend/main.py:192-196 | the listing is a permutation of the completed compress tasks that have a `result_file_id` field |
| `Ledger.EntryOf` | backend/main.py:204-211 | an entry exists exactly when its task's `params` is absent or a mapping (otherwise `.get` raises); it carries that task's id and creation time; a missing result filename, raw filename or IP address shows "未知" while a stored null stays null; the size is its blob's length |
| `Ledger.EntrySize` | backend/main.py:203-209 | a listed file's size is the length of the blob its task names, and 0 when no blob has that id |
| `Ledger.TaskLedger.CompressionStats` | backend/main.py:134-148 | unauthorized gives 403; otherwise the reply is the statistics of the stored tasks and blobs |
| `Ledger.StatsOf` | backend/main.py:136-148 | counts all tasks and the `完成` and `失敗` tasks; completed + failed ≤ total; storage is the sum of all blob lengths (0 with no blobs); success rate is in [0, 100], is 0 for an empty ledger, and is 100·completed/total otherwise |
| `Ledger.CompletedAndFailedAreDisjoint` | backend/main.py:137-139 | no task is counted as both completed and failed |
| `Ledger.SuccessRate` | backend/main.py:147 | the rate lies in [0, 100]; it is 0 when there are no tasks, and otherwise times total it gives 100 · completed |
| `Ledger.RecentTasks` | backend/main.py:164-166 | exactly those tasks of the collection created in the last ten minutes with one of the four statuses |
| `Ledger.TaskLedger.ActiveTasks` | backend/main.py:162-169 | returns min(20, #recent) tasks, each from the last ten minutes with one of the four statuses, newest first, and no recent task left out is newer than one returned |
| `Ledger.NewestPrefix` | backend/main.py:167 | the first k tasks of a newest-first list are its k newest |
| `Ledger.CursorNewestFirst` | backend/main.py:192-196 | the page's cursor, whatever the skip and limit, is ordered newest first |
| `Ledger.TaskLedger.EntriesOf` | backend/main.py:198-211 | the loop fails exactly when some cursor task's `params` is not a mapping; otherwise it appends exactly one entry per cursor task, in cursor order, with that task's id, defaults and file size |
| `Ledger.TaskLedger.AllFiles` | backend/main.py:182-221 | unauthorized gives 403; a non-integer argument, a negative skip, a skip or limit the driver cannot encode as a 64-bit integer, a shown task whose `params` is not a mapping, or limit 0 ends in a 500, in that order; otherwise page and limit are echoed, total and total_pages are as computed, and files are the entries of the window of the newest-first listing, in order |
| `Ledger.MatchedTasks` | backend/main.py:244 | `find({'_id': {'$in': ids}})` yields exactly those tasks whose id is named |
| `Ledger.KeepTasks` | backend/main.py:257 | what is left of `tasks` after the deletions: exactly those tasks whose id is not among the deleted |
| `Ledger.KeepBlobs` | backend/main.py:253 | what is left of `fs.files`: exactly the blobs whose id is not among the deleted |
| `Ledger.KeepChunks` | backend/main.py:254 | `delete_many({'files_id': id})` leaves exactly the chunks of other blobs |
| `Ledger.DeleteOneTask` | backend/main.py:257 | `delete_one` removes one task when some task has the id and changes nothing otherwise; every other task stays and nothing is added |
| `Ledger.DeleteOneBlob` | backend/main.py:253 | `delete_one` on `fs.files` removes one blob when some blob has the id and changes nothing otherwise; every other blob stays and nothing is added |
| `Ledger.FilterKeepsUniqueKeys` | backend/main.py:253-257 | deleting documents keeps the ids of what is left unique, for tasks and blobs alike |
| `Ledger.DeleteOneTaskByUniqueId` | backend/main.py:257 | with unique ids, `delete_one` by `_id` removes exactly that one task |
| `Ledger.DeleteOneBlobByUniqueId` | backend/main.py:253 | with unique ids, `delete_one` on `fs.files` removes exactly the blob with that id |
| `Ledger.DeleteStepTasks` | backend/main.py:250-258 | one loop turn removes the next matched task on top of what the earlier turns removed, and ids stay unique |
| `Ledger.DeleteStepBlobs` | backend/main.py:250-255 | one loop turn removes a task's blob metadata and every chunk of it when it has a blob, and touches neither store otherwise |
| `Ledger.TaskLedger.DeleteTaskAndBlob` | backend/main.py:251-257 | one turn deletes a task's blob metadata and its chunks when that task names a blob, then its record, and touches nothing else |
| `Ledger.TaskLedger.DeleteEach` | backend/main.py:246-258 | after the loop, exactly the visited tasks, their blobs and all their chunks are gone, ids stay unique, and the count equals the number of visited tasks |
| `Ledger.KeepMatchedIsKeepNamed` | backend/main.py:244-257 | removing those tasks that the `$in` query matched is the same as removing every task whose id was named |
| `Ledger.DeletedCountIsShrinkage` | backend/main.py:246-258 | `deleted_count` is the number of tasks the collection lost |
| `Ledger.TaskLedger.BatchDelete` | backend/main.py:232-262 | a body that is not an object, empty or missing `task_ids`, or an invalid id gives an error and deletes nothing; otherwise the named existing tasks, their blobs and their chunks are removed, names that match nothing are skipped, nothing else changes, and the count is the number of tasks removed |
| `Ledger.SecondDeleteMatchesNothing` | backend/main.py:244 | after a batch delete, the same ids match no task |
| `Ledger.StorageAfterDelete` | backend/main.py:253 | the reported storage drops by exactly the lengths of the removed blobs |
| `Ledger.DeletePreservesRefs` | backend/main.py:250-257 | if every blob reference resolved and no blob has two owners, then after a delete every surviving task's blob still exists |
| `Health.CountsWithinTotal` | backend/main.py:291-297 | processing + waiting + completed-today never exceeds the total task count |
| `Health.CountsOf` | backend/main.py:291-300 | the figures are the number of tasks and of holidays, and per status the number of tasks with that literal (completed ones only from midnight on); none exceeds the total, and each is 0 exactly when no task qualifies |
| `Health.DatabaseOf` | backend/main.py:282-318 | the database is healthy ("連線正常") iff the ping answers and no later step raises, and unhealthy otherwise; without a client the message is "MongoDB client 未初始化", and a failed ping, count or `dbStats` gives that exception's message; counts appear iff every count succeeded and equal the store's, even when `dbStats` then fails; `collections_count` appears iff `dbStats` answered, and is its `collections` field or 0 |
| `Health.ServiceOf` | backend/main.py:364-395 | the schedule probe is healthy iff it answered 200; a response time is reported iff an answer came; a timeout says "連線超時", any other error gives its message |
| `Health.HttpMessageNamesCode` | backend/main.py:345-350 | an answer other than 200 is reported as "HTTP " followed by digits that read back as the status code |
| `Health.HttpMessagesDistinct` | backend/main.py:345-350 | two different failing codes give different messages |
| `Health.StorageOf` | backend/main.py:336-343 | each storage figure is the compressor's field when present, else its default (512 for the total, "normal" for the level, 0 for the rest) |
| `Health.StorageDefaults` | backend/main.py:336-343 | a compressor that reports no fields shows 0, 512, 0, 0, 0 and "normal" |
| `Health.CompressorOf` | backend/main.py:321-362 | storage is filled iff the compressor answered 200 with a JSON object; then it is healthy; a 200 whose body is not an object becomes unhealthy, with the error and no response time; other outcomes are classified like the schedule probe |
| `Health.Overall` | backend/main.py:398-404 | the verdict is "healthy" iff all three sections are healthy, "degraded" otherwise, and never "unhealthy" |
| `Health.HealthReportOf` | backend/main.py:275-406 | the report carries the time of the request, the database section for the database outcome, the compressor section and storage for the compressor probe, the schedule section for the schedule probe, and the verdict over those three sections |
| `Health.OverallVerdict` | backend/main.py:398-404 | overall is "healthy" iff the database check and both probes succeed (equivalently, all three sections are healthy), "degraded" otherwise, never "unhealthy" |
| `Health.DatabaseFailureIsolated` | backend/main.py:282-395 | the database outcome does not affect the compressor, schedule or storage sections |
| `Health.DatabaseFailureDegrades` | backend/main.py:316-318 | a failing database check sets the database section unhealthy and the overall status degraded |
| `Health.SystemHealth` | backend/main.py:270-406 | unauthorized gives 403; otherwise the report filled section by section equals the composed report for the same stores and probe outcomes |

## Left out

- Flask routing, CORS, the rate limiter, the HTTPS redirect and JSON serialisation (`json_util`, `jsonify`): this is framework wiring.
- Building the MongoDB client, the `/status` ping, and the 500 replies for a collection handle that is `None` (main.py:35-100, 105, 118, 135, 159, 179, 229): this is connection setup; the model always has its stores.
- The admin-secret comparison: it is the boolean `authorized`.
- `Calendar.Rejection`: the 500 replies name the exception as a `Fault` case; their `str(e)` text is not modelled.
- `Calendar.HolidayCalendar.Update`: the reply is the corrected `Calendar.UpsertReply` (saved exactly when the store changed), not the truthiness test of backend/main.py:125, which `Calendar.UpsertReplyAsWritten` models; see Findings.
- The text of 500 replies (`str(e)`): a `Fault` case names which exception it was. Other store failures in the middle of a handler are not modelled; in particular, a failure part-way through a batch delete, which would leave earlier deletions done.
- Floating point: `success_rate` is the exact rational before `round(..., 2)`; `storage_used_mb`, `db_size_mb` and the rounding of `response_time_ms` are left out. Response times are integer milliseconds supplied with the probe outcome.
- Clocks and real HTTP: `datetime.now()`, local midnight and the probe outcomes are parameters. The ISO timestamp is the integer `now`.
- MongoDB regular expressions: the holiday query is modelled as a literal prefix test. Year or month text containing regex metacharacters is not escaped in the source, and that case is not modelled.
- `$set` with dotted keys or `$`-prefixed keys, and the MongoDB server's refusal of an empty `$set` on older versions: a body holding only `_id` is modelled as an empty `$set`: nothing changes for an existing record, and `{_id}` is created when absent.
- `int()` of query arguments: only "an integer" or "not one" (500); whitespace, signs and underscores in the text are not modelled.
- ObjectId construction from non-string values (bytes, existing ObjectIds) in `task_ids`: each id is a string.
- `Ledger.TaskLedger.AllFiles`: the 500 for a skip of 2^63 or more, or a limit whose magnitude is 2^63 or more, comes from the bson encoder of the find command, which is not part of this model; the bound is the one of BSON's signed 64-bit integers.
- A stored `params` that is not a mapping (null included) is a single case whatever it holds: only its lack of `.get` is modelled.
- `Tasks.ParseObjectId`: bson hands a 24-character string to `bytes.fromhex`, which skips ASCII whitespace between hex pairs. For such a text the source raises no `InvalidId` and goes on with a malformed 11-byte id; what the query then matches is not modelled. The model refuses the text with a 500.
- `Ledger.TaskLedger.BatchDelete`: a `task_ids` that is not a list of strings is not representable. As written, a non-empty string is iterated character by character and fails `ObjectId` (500); a non-zero number or `true` is not iterable (500); an object is iterated over its keys, which then act as ids; in a list, `null` yields a fresh ObjectId that matches nothing and any other non-string item fails `ObjectId` (500). A `get_json()` that raises is folded into the body that is not an object, which is also a 500.
- Field values (`Common.Value`) are null, booleans, integers, strings and timestamps: floating-point numbers, arrays and nested objects as values of holiday or compressor fields are not modelled, and neither are nested JSON values in a request body.
- `created_at` is always present and is an integer number of seconds; the `'created_at': None` of a task without one is not modelled.
- Ties in `sort('created_at', -1)`: MongoDB does not fix their order, and it may differ between two runs of the same query. The active-task feed is one query, and its contract holds whatever the tie order. The file listing runs one query per page, so tied tasks can repeat or vanish between pages (see Findings); `Ledger.Listing` models the corrected query, which breaks ties by `_id`.
- `Tasks.SortNewestFirst`: stated as a newest-first permutation; MongoDB's actual tie order is not stated.
- `Tasks.PagesArePrefix`: the pages are cut from one sequence. They are the pages the source serves only when every page request sorts in the same way: always for the corrected listing (`Ledger.ListingIsTheOrder`), and for the query as written only when no two listable tasks share a creation time (`Ledger.ListingOrderForced`).
- `Tasks.AllPagesCoverListing`: the same hypothesis as `Tasks.PagesArePrefix`; with tied creation times the query as written does not guarantee that every listed task is served once (`Tasks.TiedOrdersRepeatAPage`).
- Concurrent requests, including two batch deletes racing, are left out: the model is sequential.
- `Health.DatabaseOf`: `dataSize` and `db_size_mb` are left out (floating point); only `collections_count` is carried from `dbStats`. An exception from `stats.get` on a non-dict reply is not modelled.
- backend/tests/test_api.py: its tests call endpoints that main.py does not define, so nothing in them is modelled.

## Findings

| source | as written | input that shows it | evidently intended | confidence | as-written member | corrected member |
|---|---|---|---|---|---|---|
| backend/main.py:192-196 | the listing sorts on `created_at` alone and runs the query again for every page with a different skip | two completed compress tasks with the same `created_at` and `limit=1`: page 1 may sort them one way and page 2 the other, so one task is served twice and the other never | break ties on a unique field, `sort([('created_at', -1), ('_id', 1)])`, so every page request sees the same order | not executed | `Tasks.TiedOrdersRepeatAPage` | `Ledger.ListingIsTheOrder` |
| backend/main.py:125 | `if result.upserted_id or result.modified_count > 0` tests the created record's `_id` for truthiness | `POST /update_holiday` with `{"_id": "", "name": "x"}` (or `_id` 0, false or null) on a calendar without that id: a record is created, yet the reply is "資料無變動" | "saved" whenever a record was created (`upserted_id is not None`) or a value changed | not executed | `Calendar.EmptyIdCreationReportsNoChange` | `Calendar.UpsertReply` |

Behaviours of the code that a reader might not expect, which the model follows:

- `total` in the file listing counts completed compress tasks whether or not they have `result_file_id`, so it can exceed the listable count.
- `result_file_id: {'$exists': True}` lets a null reference through; such a task is listed with file size 0.
- A probe that times out or fails reports no response time: only an answer is timed.
- A compressor answering 200 with a body that is not a JSON object fails the whole probe.
- A holiday `_id` can be any JSON value and is not checked against the `YYYYMMDD` form; only string ids can match a query.

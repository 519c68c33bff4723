# chan-parser: the files table, its records, and the catalog read model

chan-parser scrapes image-board threads into SQLite and serves them through
a small web API. This project models the layer between SQLite rows and that
API, and proves its properties in Dafny. The layer has four parts:

- **`FileQueries`** (`file_queries.dfy`, module `FileTable`): the query code
  for the `files` table.
  - The projection builder that lists the twelve columns minus the excluded
    ones.
  - The single-row and many-row selections, which map rows to records.
  - The batched selection by a parenthesised list of post ids.
  - The insert, and the partial update with its `SET` clause and its
    parallel list of bound values.
- **`StoredFile`** (`stored_file.dfy`) and **`StoredPost`**
  (`stored_post.dfy`): the records of one row each.
  - Row to record: snake-case columns become camel-case fields, and integer
    flags become booleans.
  - Columns that were not selected are defaulted.
  - A whitelist of field names is checked before a name is snake-cased.
  - The conversions to and from the observer's `File` and `Post` shapes.
- **The `/api/catalog-threads` handler** (`catalog_threads.dfy`).
  - Three pure projections to catalog objects. One of them derives the CDN
    addresses of a file.
  - The handler itself. It looks up one thread (or lists the threads of a
    board), then that thread's first post, then that post's first file
    without the binary payloads. It answers with the composed entries, a
    404, or a 500.

The supporting modules are:

- `js.dfy` (`Js`): the JavaScript values the code handles, truthiness, and
  `${...}` interpolation.
- `text.dfy` (`Text`): joining and splitting strings, and `slice`.
- `db.dfy` (`Db`): the database connection.

The database is a `Connection` object. It is given the engine's answers as
functions of the query: a single row or none, a list of rows, or the id of
an inserted row, each of them possibly a driver error. It records every call
in `calls`, so the contracts can state which SQL text and parameters were
sent, in what order, and that nothing else was sent. The thread and post
lookups of the handler are modelled the same way, in `ThreadPostQueries`.

Each loop of the source is a method with its invariants, proved against a
specification function:

- the splice loop and the join loop of `listTableColumns` (`ListColumns`);
- the id-list loop (`ListIds`);
- the `SET` loop (`ListSetClause`) and the parameter loop (`ListUpdateParams`);
- the row-mapping loops (`MapRows`);
- the handler's per-thread loop (`ListEntries`).

The per-thread work of the handler is defined once, as `PostAndFile`. The
listing (`Listing`) and the two response functions are stated over any
per-thread step. The handler's methods are tied to `PostAndFile` through
`Computes`.

Three behaviours of the code worth knowing:

- **Unselected versus NULL.** A nullable column that was not selected and a
  column that holds a stored NULL both read as `null` (`ReadOfProjectedRow`).
  The two cannot be told apart.
- **A thread without posts.** Projecting the null post reads `id` of null.
  The model makes that a failure, which gives a 500 (`PostAndFile`,
  `SingleThreadAnswers`).
- **Listing entries.** Each entry of a listing holds the thread object as
  stored. Only the single-thread answer reshapes it with `toCatalogThread`.

## Model

| member | source | states |
|---|---|---|
| Js.NumberHasNoSeparator | src/services/database-service/commons/FileQueries.js:139-143 | a number interpolates without a comma, slash or dot, so numeric ids cannot break the `IN` list or the CDN paths |
| Text.SliceTo | src/services/database-service/commons/FileQueries.js:67 | `slice(0, end)` returns a prefix of the string; its length is `end` clamped to the string's length, and a negative end counts back from the end, down to the empty prefix |
| Text.DropTrailingSeparator | src/services/database-service/commons/FileQueries.js:63-67 | appending each name with a separator and then slicing the last separator off yields the names joined, and "" when there are none |
| Text.IndexOf | src/services/database-service/commons/FileQueries.js:57 | `indexOf` is -1 exactly for an absent name; otherwise it is the position of the first occurrence |
| Text.ParseJoin | src/services/database-service/commons/FileQueries.js:63-67 | a list joined with `", "` splits back into the same list, provided its elements are non-empty and comma-free |
| Text.SplitJoinBare | src/services/database-service/commons/FileQueries.js:139-143 | a non-empty list joined with a bare `","` splits back into the same list, provided its elements hold no comma (the empty list joins to "", which splits into `[""]`) |
| Db.Property | src/services/database-service/commons/StoredFile.js:63 | `row.name` is undefined exactly when the column was not selected |
| Db.Connection.WrapGetQuery | src/services/database-service/commons/DBUtils.js:9-21 | logs one single-row read and resolves with the engine's row, with none when no row matched, or with the driver's error |
| Db.Connection.WrapAllQuery | src/services/database-service/commons/DBUtils.js:49-59 | logs one many-row read and resolves with the engine's rows or the driver's error |
| Db.Connection.WrapRunQuery | src/services/database-service/commons/FileQueries.js:169-170 | logs one write and resolves with the last inserted id or the driver's error |
| StoredFiles.ConvertFieldToSnakeCase | src/services/database-service/commons/StoredFile.js:47-52 | succeeds exactly for the twelve instance fields and fails naming the field otherwise; field i maps to column i of the columns the row mapper reads (`postId` to `post_id`, and so on) |
| StoredFiles.ConvertFieldIsInjective | src/services/database-service/commons/StoredFile.js:47-52 | two whitelisted fields with the same column are the same field |
| StoredFiles.CamelToSnakeCase | src/services/database-service/commons/StoredFile.js:51 | on a whitelisted field, the column at the field's own position among the columns the row mapper reads |
| StoredFiles.RowToFile | src/services/database-service/commons/StoredFile.js:62-70 | each plain field is its column (undefined when not selected); `isDeleted` is `Boolean(is_deleted)`, false exactly for 0; `extension`, `data` and `thumbnailData` are the column when selected (a stored NULL included) and null otherwise |
| StoredFiles.RowToFileReadsRowColumns | src/services/database-service/commons/StoredFile.js:62-67 | field i of the mapped record comes from column i of `RowColumns`: copied for the first eight, `Boolean(...)` for `is_deleted`, null-defaulted for the last three |
| StoredFiles.MakeFromTableRow | src/services/database-service/commons/StoredFile.js:62-70 | constructing from the columns and then patching the three nullable fields gives `RowToFile(row)` |
| StoredFiles.MakeFromObserverFile | src/services/database-service/commons/StoredFile.js:77-79 | the post id comes from the argument; extension, data and thumbnailData are null; the observer view of the result is the observed file |
| StoredFiles.ObserverFileOf | src/services/database-service/commons/StoredFile.js:86-90 | each of the eight observer properties is the stored file's property of the same name; what it drops is `ObserverFileDropsPostAndPayloads` and its round trip `StoredThroughObserver` |
| StoredFiles.ObserverFileDropsPostAndPayloads | src/services/database-service/commons/StoredFile.js:86-90 | two stored files look alike to the observer exactly when they differ only in post id, extension and payloads |
| StoredFiles.ToObserverFile | src/services/database-service/commons/StoredFile.js:86-90 | building the observer file from the seven constructor arguments and then assigning the id gives the observer view |
| StoredFiles.StoredThroughObserver | src/services/database-service/commons/StoredFile.js:77-90 | going to the observer shape and back keeps every field except extension, data and thumbnailData, which become null |
| StoredPosts.MakeFromTableRow | src/services/database-service/commons/StoredPost.js:41-43 | `thread_id`, `list_index` and `create_timestamp` land in the camel-case fields; id, number, name and comment keep their names; the three flags are booleans, false exactly for 0, NULL or an unselected column |
| StoredPosts.ToObserverPost | src/services/database-service/commons/StoredPost.js:50-52 | the files argument is carried through unchanged, and so are the eight other fields |
| StoredPosts.ObserverPostDropsIds | src/services/database-service/commons/StoredPost.js:50-52 | posts that differ only in id and thread id have the same observer view |
| FileTable.ListTableColumns | src/services/database-service/commons/FileQueries.js:52-68 | the result is the projected columns joined by `", "` |
| FileTable.ListColumns | src/services/database-service/commons/FileQueries.js:55-67 | splicing out each excluded name at its `indexOf` and then joining with the trailing separator sliced off gives the kept names joined by `", "` |
| FileTable.SpliceIsRemoveFirst | src/services/database-service/commons/FileQueries.js:57-60 | `splice(indexOf(x), 1)` guarded by `!== -1` removes the first `x` and leaves a list without `x` unchanged |
| FileTable.RemoveFirstFromKeep | src/services/database-service/commons/FileQueries.js:56-61 | on distinct names, removing one more excluded name is the same as filtering it out too |
| FileTable.ProjectedColumns | src/services/database-service/commons/FileQueries.js:52-61 | a column is listed exactly when it is a table column and not excluded; the list keeps the declared order and has no repeats; an excluded name that is not a column changes nothing |
| FileTable.KeepInOrder | src/services/database-service/commons/FileQueries.js:53-61 | filtering distinct names keeps their relative order |
| FileTable.ProjectedExtremes | src/services/database-service/commons/FileQueries.js:53-67 | no exclusions list all twelve columns; excluding all twelve lists none, so the column list is "" |
| FileTable.ColumnListReadsBack | src/services/database-service/commons/FileQueries.js:52-68 | the column list splits back on its commas into exactly the projected columns, so it never names an excluded column |
| FileTable.CatalogProjection | src/services/web-service/app/controllers/catalog-threads.controller.js:76 | leaving out `data` and `thumbnail_data` lists the other ten columns, in declared order |
| FileTable.TableColumnsAreRowColumns | src/services/database-service/commons/FileQueries.js:53 | the table's twelve columns are the row mapper's columns (`RowToFileReadsRowColumns` shows the mapper reads exactly these), and each field's snake-case name is the column at its own position |
| FileTable.ReadOfProjectedRow | src/services/database-service/commons/StoredFile.js:63-67 | for a row holding exactly the projected columns, excluding `extension`, `data` or `thumbnail_data` makes that field null; excluding `id` leaves it undefined; excluding `is_deleted` makes it false |
| FileTable.ReadOfSelectedColumns | src/services/database-service/commons/StoredFile.js:65-66 | a selected `data` or `extension` column is copied as read and is never undefined |
| FileTable.IdTexts | src/services/database-service/commons/FileQueries.js:140-142 | one text per id, in input order, each the id as the template interpolates it |
| FileTable.ListIds | src/services/database-service/commons/FileQueries.js:139-143 | appending each id with a comma, slicing off the last comma and parenthesising gives `"("` + the ids joined by `","` + `")"` |
| FileTable.IdListReadsBack | src/services/database-service/commons/FileQueries.js:139-145 | the `IN` operand splits back into the ids' texts, one per id, in input order, when no id renders with a comma |
| FileTable.NumericIdsReadBack | src/services/database-service/commons/FileQueries.js:139-145 | an `IN` list of numeric ids always reads back as those ids |
| FileTable.RowsToFiles | src/services/database-service/commons/FileQueries.js:122-126 | one record per row, same length, same order, each the row's mapping |
| FileTable.MapRows | src/services/database-service/commons/FileQueries.js:148-152 | the push loop yields exactly `RowsToFiles(rows)` |
| FileTable.NullableFile | src/services/database-service/commons/FileQueries.js:104-109 | fails exactly when the read fails; null exactly when no row matched; otherwise the mapped row |
| FileTable.FileWithoutNullCheck | src/services/database-service/commons/FileQueries.js:79 | the reading as written: succeeds exactly when a row matched, with that row's mapping, and passes a driver error through |
| FileTable.ToNullable | src/services/database-service/commons/FileQueries.js:105-109 | the `row !== null` branch gives `NullableFile` of the answer |
| FileTable.ToUnchecked | src/services/database-service/commons/FileQueries.js:79 | passing the answer straight to the row mapper gives `FileWithoutNullCheck` of the answer |
| FileTable.MissingRowFails | src/services/database-service/commons/FileQueries.js:79 | with no matching row, the lookup as written fails on reading `id`, where the null-checked reading gives null |
| FileTable.NullCheckOnlyMattersForMissingRows | src/services/database-service/commons/FileQueries.js:91 | whenever a row exists or the read fails, the unchecked and the null-checked readings agree |
| FileTable.SetPieces | src/services/database-service/commons/FileQueries.js:184-186 | one assignment per field |
| FileTable.SetPiecesAt | src/services/database-service/commons/FileQueries.js:184-186 | the i-th assignment is `<snake(field i)> = ?` |
| FileTable.FirstUnknownField | src/services/database-service/commons/FileQueries.js:184-185 | -1 exactly when every field is whitelisted; otherwise the first field that is not |
| FileTable.SetClauseReadsBack | src/services/database-service/commons/FileQueries.js:183-187 | the `SET` clause splits on its commas into one `<column> = ?` per field, in order, each naming the field's own column |
| FileTable.ListSetClause | src/services/database-service/commons/FileQueries.js:183-187 | fails exactly when a field is not whitelisted, with the first such field's error; otherwise gives the assignments joined by commas without a trailing comma |
| FileTable.UpdateParams | src/services/database-service/commons/FileQueries.js:191-194 | the bound values have the fields' length and order, the i-th being `file[field i]` |
| FileTable.ListUpdateParams | src/services/database-service/commons/FileQueries.js:191-194 | the push loop yields exactly `UpdateParams` |
| FileTable.InsertParams | src/services/database-service/commons/FileQueries.js:169 | the insert binds the twelve fields in column order |
| FileTable.UpdateAllIsInsertParams | src/services/database-service/commons/FileQueries.js:169 | updating every field binds the same values, in the same order, as inserting |
| FileTable.FileQueries.constructor | src/services/database-service/commons/FileQueries.js:14-16 | keeps the given connection |
| FileTable.FileQueries.SelectFileById | src/services/database-service/commons/FileQueries.js:77-80 | as written: one read of the projection by id; a missing row fails instead of giving null |
| FileTable.FileQueries.SelectFileByIdOrNull | src/services/database-service/commons/FileQueries.js:70-80 | as documented: the same single read, giving null exactly when no row matched |
| FileTable.FileQueries.SelectFileByUrl | src/services/database-service/commons/FileQueries.js:89-92 | as written: one read of the projection by quoted url; a missing row fails instead of giving null |
| FileTable.FileQueries.SelectFileByUrlOrNull | src/services/database-service/commons/FileQueries.js:82-92 | as documented: the same single read, giving null exactly when no row matched |
| FileTable.FileQueries.SelectFirstFileOfPost | src/services/database-service/commons/FileQueries.js:101-110 | one read for the post's file at list index 0; null exactly when no row matched; otherwise the mapped row |
| FileTable.FileQueries.SelectFilesOfPost | src/services/database-service/commons/FileQueries.js:119-127 | one many-row read for the post; the driver's error, or the rows mapped one to one in order |
| FileTable.FileQueries.SelectFilesOfPosts | src/services/database-service/commons/FileQueries.js:136-153 | no ids: an empty result and no query at all; otherwise one `IN` read with the ids in input order, then the driver's error or the rows mapped one to one in order |
| FileTable.FileQueries.InsertFile | src/services/database-service/commons/FileQueries.js:164-171 | one write of the exact `INSERT` text (line break and indentation before `VALUES` included) binding the twelve fields in column order; resolves with the inserted id |
| FileTable.FileQueries.UpdateFile | src/services/database-service/commons/FileQueries.js:182-197 | an unknown field fails with its name before any query; otherwise exactly one write of the `SET` clause for the requested fields with their values, and the write's outcome |
| CatalogThreads.CatalogThreadShowsListedFields | src/services/web-service/app/controllers/catalog-threads.controller.js:8-23 | two stored threads project alike exactly when they agree on the twelve listed fields |
| CatalogThreads.CatalogPostDropsThreadId | src/services/web-service/app/controllers/catalog-threads.controller.js:25-37 | two stored posts project alike exactly when they differ at most in thread id |
| CatalogThreads.ToCatalogThread | src/services/web-service/app/controllers/catalog-threads.controller.js:8-23 | each of the twelve listed properties is the stored thread's property of the same name; that nothing else of the stored object shows is `CatalogThreadShowsListedFields` |
| CatalogThreads.ToCatalogPost | src/services/web-service/app/controllers/catalog-threads.controller.js:25-37 | each of the nine properties is the stored post's property of the same name; that only the thread id is dropped is `CatalogPostDropsThreadId` |
| CatalogThreads.ToCatalogFile | src/services/web-service/app/controllers/catalog-threads.controller.js:39-48 | id and list index are copied; both addresses are null when the extension is falsy and both are the CDN strings otherwise |
| CatalogThreads.FileUrlReadsBack | src/services/web-service/app/controllers/catalog-threads.controller.js:44 | the file address splits into `cdn`, `file`, the id, and the CDN name and extension around the dot |
| CatalogThreads.ThumbnailUrlReadsBack | src/services/web-service/app/controllers/catalog-threads.controller.js:46 | when the id and the CDN name hold no slash, the thumbnail address splits into `cdn`, `thumbnail`, the id, and the CDN name followed by `_s.png` |
| CatalogThreads.CatalogFileExample | src/services/web-service/app/controllers/catalog-threads.controller.js:43-46 | file 42 named `abc` with extension `png` is served at `/cdn/file/42/abc.png` with thumbnail `/cdn/thumbnail/42/abc_s.png`, and has neither a file nor a thumbnail address with an empty extension |
| CatalogThreads.OrNull | src/services/web-service/app/controllers/catalog-threads.controller.js:56-58 | a parameter counts as given exactly when it is present and not empty |
| CatalogThreads.ThreadPostQueries.SelectThread | src/services/web-service/app/controllers/catalog-threads.controller.js:66 | logs one lookup by id and gives the lookup's answer |
| CatalogThreads.ThreadPostQueries.SelectThreads | src/services/web-service/app/controllers/catalog-threads.controller.js:82 | logs one lookup of the boards' threads and gives the lookup's answer |
| CatalogThreads.ThreadPostQueries.SelectFirstPostOfThread | src/services/web-service/app/controllers/catalog-threads.controller.js:87 | logs one first-post lookup and gives the lookup's answer |
| CatalogThreads.PostAndFile | src/services/web-service/app/controllers/catalog-threads.controller.js:73-77 | one post lookup keyed by the thread; no post or a failed lookup fails with no file query; on success exactly one file query, for the found post's first file without payloads |
| CatalogThreads.Listing | src/services/web-service/app/controllers/catalog-threads.controller.js:84-94 | a successful listing has exactly one entry per thread |
| CatalogThreads.PostAndFileFacts | src/services/web-service/app/controllers/catalog-threads.controller.js:73-77 | one post lookup keyed by the thread; no post means a failure and no file query; otherwise one file query for that post's id without the payloads; the file facet is null exactly when no file row matched |
| CatalogThreads.PerThreadIsOneLookupOneQuery | src/services/web-service/app/controllers/catalog-threads.controller.js:87-91 | every thread's step makes one post lookup keyed by that thread and, on success, one file query keyed by the found post's id |
| CatalogThreads.ListingStep | src/services/web-service/app/controllers/catalog-threads.controller.js:84-94 | one more thread appends its lookups and queries, then either pushes its entry or ends the listing with its failure |
| CatalogThreads.ListingStopsAtFailure | src/services/web-service/app/controllers/catalog-threads.controller.js:84-101 | once a thread has failed, the later threads are never looked at |
| CatalogThreads.ListingFailsAt | src/services/web-service/app/controllers/catalog-threads.controller.js:84-101 | the first failing thread's error ends the listing, after that thread's lookups |
| CatalogThreads.ListingSucceeds | src/services/web-service/app/controllers/catalog-threads.controller.js:84-94 | a listing succeeds exactly when every thread's step succeeds |
| CatalogThreads.ListingContents | src/services/web-service/app/controllers/catalog-threads.controller.js:84-94 | when every step succeeds: one entry per thread, in order, each the stored thread with its post and file; one post lookup and one file query per thread, in the same order |
| CatalogThreads.SingleThreadAnswers | src/services/web-service/app/controllers/catalog-threads.controller.js:63-79 | with an id: 404 exactly when no thread has it, and then no post or file lookup; a thread without posts is a 500 with no file query; JSON exactly when the thread, its post and the file read all succeed, and then the one entry is the reshaped thread, the catalog post and the catalog file, which is null exactly when no file row matched; any other answer is 500 |
| CatalogThreads.ThreadAnswers | src/services/web-service/app/controllers/catalog-threads.controller.js:63-79 | the same answers for any per-thread step that makes one lookup of its thread; a JSON answer holds `toCatalogThread` of the thread with the step's post and file |
| CatalogThreads.ListingAnswers | src/services/web-service/app/controllers/catalog-threads.controller.js:80-101 | without an id: the thread lookup comes first; the answer is JSON exactly when it and every thread's step succeed, and 500 otherwise |
| CatalogThreads.ListingEntries | src/services/web-service/app/controllers/catalog-threads.controller.js:80-97 | on success: one entry per stored thread in the order returned, with the thread not reshaped; the lookups are the threads lookup and then one post lookup per thread; one file query per thread, in order |
| CatalogThreads.ThreadResponse | src/services/web-service/app/controllers/catalog-threads.controller.js:63-79 | the thread lookup comes first; a JSON answer is a single thread |
| CatalogThreads.ListingResponse | src/services/web-service/app/controllers/catalog-threads.controller.js:80-101 | the threads lookup comes first; never a 404; a JSON answer is a list with one entry per stored thread |
| CatalogThreads.Respond | src/services/web-service/app/controllers/catalog-threads.controller.js:50-101 | every failure is a 404 or a 500, and a 404 happens only when an id is given |
| CatalogThreads.RespondDispatch | src/services/web-service/app/controllers/catalog-threads.controller.js:52-63 | a non-empty id selects the single-thread branch and anything else selects the listing; each thread's step is one post lookup and, on success, one first-file query |
| CatalogThreads.EmptyParameterIsAbsent | src/services/web-service/app/controllers/catalog-threads.controller.js:56-58 | an empty id, an empty image board and an empty board are each answered as if that parameter were absent |
| CatalogThreads.CatalogThreadsGetApi | src/services/web-service/app/controllers/catalog-threads.controller.js:50-102 | the handler's answer, its lookups and its file queries are exactly those of `Respond` |
| CatalogThreads.GetThread | src/services/web-service/app/controllers/catalog-threads.controller.js:63-79 | the single-thread branch answers, looks up and queries exactly as `ThreadResponse` |
| CatalogThreads.ListThreads | src/services/web-service/app/controllers/catalog-threads.controller.js:80-97 | the listing branch answers, looks up and queries exactly as `ListingResponse` |
| CatalogThreads.ListEntries | src/services/web-service/app/controllers/catalog-threads.controller.js:84-94 | the push loop yields, looks up and queries exactly as `Listing` |
| CatalogThreads.FirstPostAndFile | src/services/web-service/app/controllers/catalog-threads.controller.js:87-91 | one thread's post and file reads give exactly the per-thread step's result, lookups and queries |

## Findings

| source | as written | input that shows it | evidently intended | confidence | as-written member | corrected member |
|---|---|---|---|---|---|---|
| src/services/database-service/commons/FileQueries.js:77-80 | `selectFileById` passes the row straight to `makeFromTableRow`, which reads `row.id` | a read by id that matches no row, so the connection resolves with null | resolve with null, as the method's documentation promises | not executed | FileTable.MissingRowFails | FileTable.FileQueries.SelectFileByIdOrNull |
| src/services/database-service/commons/FileQueries.js:89-92 | `selectFileByUrl` passes the row straight to `makeFromTableRow`, which reads `row.id` | a read by url that matches no row | resolve with null, as the method's documentation promises | not executed | FileTable.MissingRowFails | FileTable.FileQueries.SelectFileByUrlOrNull |

## Left out

- `createTable` (the DDL text of the `files` table) is not modelled. It is schema text, and the cascade and autoincrement behaviour belong to SQLite.
- The promise plumbing of the driver wrappers is left out. Each wrapper is one logged call with a given answer. `wrapExecQuery` is used only by `createTable`.
- `camelToSnakeCase` and `wrapRunQuery` are not among DBUtils.js's exports. The first is modelled as the fixed twelve-entry table that the row mapper implies. The second is an abstract write that resolves with the last inserted id.
- How SQLite evaluates the generated SQL (filtering, `IN`, persisting an update) is not modelled. The contracts state the SQL text and parameters that are sent, not their effect.
- `boardsListGetApi` is left out. It forwards to a `selectBoards` lookup that is not part of this model.
- Express and logging are reduced to data. `req` is a record of three optional strings. `res.status(...).send(...)` and `res.json(...)` become a `Response` value. The `logger.error` call in the 500 branch is not modelled.
- `async`/`await` is modelled as plain sequential calls.
- The `File`, `Post`, `StashFile`, `ThreadQueries` and `PostQueries` classes are not part of this model.
  - `File` and `Post` are records of their constructor arguments. What `File`'s constructor leaves in `id` before it is assigned is taken to be undefined.
  - The three thread and post lookups are given functions with their own call log.
- The handler keeps two logs: the thread and post lookups, and the file queries. Each log is stated in order, but how the two interleave is not captured.
- In the listing branch, `storedThreads` is assigned without a declaration, which makes it an implicit global. The model treats it as a local. What is lost: two listing requests in flight share that variable, so after an `await` one request's loop can read the other request's threads; concurrent requests are not modelled.
- The values are simplified:
  - numbers are integers, and floating point is not modelled;
  - `Buffer` payloads are opaque handles, and their `${...}` rendering is taken to be the empty string;
  - JSON serialisation of the answers is not modelled.
- CatalogThreads.FileUrlReadsBack: holds only when the id, the CDN name and the extension contain no slash (and the name and the extension no dot). The source does not escape the address pieces, so other values make the address ambiguous.
- CatalogThreads.ThumbnailUrlReadsBack: holds only when the id and the CDN name contain no slash. A CDN name such as `a/b` makes the address split into more pieces.
- FileTable.SetClauseReadsBack: stated for at least one field. With no fields the source builds `UPDATE files SET  WHERE ...`, which `ListSetClause` and `UpdateFile` still model exactly.
- FileTable.IdListReadsBack: needs ids that render without a comma. Numeric ids always do (`NumericIdsReadBack`).
